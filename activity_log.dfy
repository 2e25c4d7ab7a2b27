/** The activity log file `activity.log`: a text file that the server only
    ever appends lines to. The file is held in memory as its list of lines,
    each written out followed by a newline. */
module ActivityLogFile {

  /** The text of a file made of `lines`, each ended by a newline: it is
      empty only when there are no lines, and otherwise ends in a newline. */
  function Render(lines: seq<string>): (r: string)
    ensures r == "" <==> lines == []
    ensures lines != [] ==> r[|r| - 1] == '\n'
  {
    if lines == [] then "" else lines[0] + "\n" + Render(lines[1..])
  }

  /** Writing two runs of lines one after the other gives the two texts one
      after the other: earlier text is never truncated or reordered. */
  lemma {:induction false} RenderConcat(a: seq<string>, b: seq<string>)
    ensures Render(a + b) == Render(a) + Render(b)
    decreases |a|
  {
    if a != [] {
      assert (a + b)[1..] == a[1..] + b;
      RenderConcat(a[1..], b);
    } else {
      assert a + b == b;
    }
  }

  /** One more line adds exactly that line and a newline at the end. */
  lemma RenderAppend(lines: seq<string>, line: string)
    ensures Render(lines + [line]) == Render(lines) + line + "\n"
  {
    RenderConcat(lines, [line]);
    assert Render([line]) == line + "\n" + Render([]);
  }

  /** An entry that stays on one line of the file and survives text-mode
      reading unchanged: no line feed and no carriage return in it. */
  predicate OnOneLine(line: string)
  {
    forall i :: 0 <= i < |line| ==> line[i] != '\n' && line[i] != '\r'
  }

  /** The number of line feeds in a text, that is, its number of ended lines. */
  function NewlineCount(s: string): nat
  {
    if s == [] then 0 else (if s[0] == '\n' then 1 else 0) + NewlineCount(s[1..])
  }

  lemma {:induction false} NewlineCountConcat(a: string, b: string)
    ensures NewlineCount(a + b) == NewlineCount(a) + NewlineCount(b)
    decreases |a|
  {
    if a != [] {
      assert (a + b)[1..] == a[1..] + b;
      NewlineCountConcat(a[1..], b);
    } else {
      assert a + b == b;
    }
  }

  lemma {:induction false} OneLineHasNoNewline(line: string)
    requires OnOneLine(line)
    ensures NewlineCount(line) == 0
    decreases |line|
  {
    if line != [] {
      OneLineHasNoNewline(line[1..]);
    }
  }

  /** When no entry holds a line break, the file has exactly one line per
      entry. */
  lemma {:induction false} RenderLineCount(lines: seq<string>)
    requires forall i :: 0 <= i < |lines| ==> OnOneLine(lines[i])
    ensures NewlineCount(Render(lines)) == |lines|
    decreases |lines|
  {
    if lines != [] {
      OneLineHasNoNewline(lines[0]);
      NewlineCountConcat(lines[0], "\n");
      NewlineCountConcat(lines[0] + "\n", Render(lines[1..]));
      RenderLineCount(lines[1..]);
    }
  }

  /** What reading the file yields: its text, or the error `open` raises when
      the file does not exist. */
  datatype ReadResult = Contents(text: string) | FileNotFound

  class ActivityLog {
    /** Whether the file exists on disk. */
    var present: bool
    /** The lines the file holds, oldest first. */
    var lines: seq<string>

    /** A file that does not exist holds nothing. */
    ghost predicate Valid()
      reads this
    {
      !present ==> lines == []
    }

    /** The file as the process finds it when it starts. */
    constructor (present: bool, lines: seq<string>)
      requires !present ==> lines == []
      ensures Valid()
      ensures this.present == present && this.lines == lines
    {
      this.present := present;
      this.lines := lines;
    }

    /** The start-up step: create the file empty when it is missing, and
        leave an existing file alone. */
    method EnsureExists()
      requires Valid()
      modifies this
      ensures Valid() && present
      ensures lines == old(lines)
    {
      if !present {
        present := true;
        lines := [];
      }
    }

    /** Open in append mode and write `line` and a newline; the file is
        created if it is missing. */
    method Append(line: string)
      requires Valid()
      modifies this
      ensures Valid() && present
      ensures lines == old(lines) + [line]
      ensures Render(lines) == Render(old(lines)) + line + "\n"
    {
      RenderAppend(lines, line);
      present := true;
      lines := lines + [line];
    }

    /** The `file://activity.log` resource: open for reading and return the
        whole text. */
    method Read() returns (r: ReadResult)
      requires Valid()
      ensures present ==> r == Contents(Render(lines))
      ensures !present ==> r == FileNotFound
    {
      if present {
        r := Contents(Render(lines));
      } else {
        r := FileNotFound;
      }
    }
  }
}
