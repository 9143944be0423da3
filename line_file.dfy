/** Text files as the launcher reads and writes them: `StreamWriter.WriteLine`
    ends every line with the Windows line terminator, and `File.ReadAllLines`
    cuts a text at "\r\n", "\n" or "\r", a final terminator adding no empty
    line. */
module LineFile {

  predicate IsLineBreak(c: char)
  {
    c == '\r' || c == '\n'
  }

  /** A string that can be written as one line and read back as one line. */
  predicate IsSingleLine(s: string)
  {
    forall i :: 0 <= i < |s| ==> !IsLineBreak(s[i])
  }

  /** `Environment.NewLine` on Windows, the platform of this WPF program. */
  const NewLine: string := "\r\n"

  /** The text that one `WriteLine` per element of `lines` leaves in a file. */
  function WriteLines(lines: seq<string>): string
  {
    if lines == [] then "" else lines[0] + NewLine + WriteLines(lines[1..])
  }

  /** Writing one more line appends it, with its terminator, to the text. */
  lemma {:induction false} WriteLinesSnoc(lines: seq<string>, line: string)
    ensures WriteLines(lines + [line]) == WriteLines(lines) + line + NewLine
  {
    if lines == [] {
      assert lines + [line] == [line];
    } else {
      assert (lines + [line])[1..] == lines[1..] + [line];
      WriteLinesSnoc(lines[1..], line);
    }
  }

  /** The first line of a non-empty text and the text after its terminator. */
  function TakeLine(text: string): (split: (string, string))
    requires text != []
    ensures |split.1| < |text|
    ensures IsSingleLine(split.0)
  {
    if text[0] == '\n' then ("", text[1..])
    else if text[0] == '\r' then ("", if |text| > 1 && text[1] == '\n' then text[2..] else text[1..])
    else if |text| == 1 then (text, "")
    else
      var (line, rest) := TakeLine(text[1..]);
      ([text[0]] + line, rest)
  }

  /** `File.ReadAllLines`: no line it returns holds a line break. */
  function ReadAllLines(text: string): (lines: seq<string>)
    ensures forall i :: 0 <= i < |lines| ==> IsSingleLine(lines[i])
    decreases |text|
  {
    if text == [] then []
    else
      var (line, rest) := TakeLine(text);
      [line] + ReadAllLines(rest)
  }

  lemma {:induction false} TakeLineTerminated(line: string, rest: string)
    requires IsSingleLine(line)
    ensures TakeLine(line + NewLine + rest) == (line, rest)
  {
    var text := line + NewLine + rest;
    if line == [] {
      assert text == NewLine + rest;
      assert text[0] == '\r' && text[1] == '\n' && text[2..] == rest;
    } else {
      assert text[0] == line[0];
      assert text[1..] == line[1..] + NewLine + rest;
      assert IsSingleLine(line[1..]);
      TakeLineTerminated(line[1..], rest);
      assert [line[0]] + line[1..] == line;
    }
  }

  lemma {:induction false} TakeLineUnterminated(line: string)
    requires line != [] && IsSingleLine(line)
    ensures TakeLine(line) == (line, "")
  {
    if |line| > 1 {
      assert IsSingleLine(line[1..]);
      TakeLineUnterminated(line[1..]);
      assert [line[0]] + line[1..] == line;
    }
  }

  /** Whatever line end follows it, a line without breaks is the first line
      read from a text. */
  lemma {:induction false} TakeLineFirst(line: string, c: char, rest: string)
    requires IsSingleLine(line) && IsLineBreak(c)
    ensures TakeLine(line + [c] + rest).0 == line
  {
    var text := line + [c] + rest;
    if line == [] {
      assert text[0] == c;
    } else {
      assert text[0] == line[0];
      assert text[1..] == line[1..] + [c] + rest;
      assert IsSingleLine(line[1..]);
      TakeLineFirst(line[1..], c, rest);
      assert [line[0]] + line[1..] == line;
    }
  }

  /** The first line `File.ReadAllLines` returns is the text up to the first
      line break ("\r\n", "\n" or "\r"), or the whole text when it has none. */
  lemma FirstLineRead(line: string, c: char, rest: string)
    requires IsSingleLine(line) && IsLineBreak(c)
    ensures |ReadAllLines(line + [c] + rest)| > 0 && ReadAllLines(line + [c] + rest)[0] == line
  {
    TakeLineFirst(line, c, rest);
  }

  /** Reading back what `WriteLines` wrote gives the same lines, provided no
      line holds a line break of its own. */
  lemma {:induction false} ReadWriteLines(lines: seq<string>)
    requires forall i :: 0 <= i < |lines| ==> IsSingleLine(lines[i])
    ensures ReadAllLines(WriteLines(lines)) == lines
  {
    if lines != [] {
      TakeLineTerminated(lines[0], WriteLines(lines[1..]));
      ReadWriteLines(lines[1..]);
      assert [lines[0]] + lines[1..] == lines;
    }
  }

  /** A non-empty text without line breaks (what `File.WriteAllText` leaves
      for one value) reads back as exactly that one line. */
  lemma ReadSingleLine(line: string)
    requires line != [] && IsSingleLine(line)
    ensures ReadAllLines(line) == [line]
  {
    TakeLineUnterminated(line);
  }
}
