/** What the command list of a file means, line by line. */
module FileReading {
  import opened Text
  import opened GCode
  import opened GCodeFile

  function LineText(lines: seq<string>, n: int): string
    requires 0 <= n < |lines|
  {
    TrimRight(lines[n])
  }

  /** The error lines are the numbers of the lines that the reader rejects. */
  lemma {:induction false} ErrorLinesAreRejected(lines: seq<string>, line: int, record: int, pos: Point, n: int)
    ensures n in ParseFrom(lines, line, record, pos).errorLines
            <==> line < n <= line + |lines| && ReadLine(LineText(lines, n - line - 1), ORIGIN).Bad?
  {
    hide ReadLine, TrimRight, Blank;
    if lines != [] {
      var text := TrimRight(lines[0]);
      var r := ReadLine(text, pos);
      ReadingIgnoresPosition(text, pos, ORIGIN);
      if Blank(text) {
        BlankIsSkipped(text, pos);
      }
      ErrorLinesAreRejected(lines[1..], line + 1, record, pos, n);
      ErrorLinesAreRejected(lines[1..], line + 1, record + 1, Next(r, pos), n);
      assert n > line + 1 && n <= line + |lines| ==> lines[1..][n - line - 2] == lines[n - line - 1];
    }
  }

  /** Where the tool stands before command `k`. */
  function StartAt(cmds: seq<Command>, k: nat, pos: Point): Point
    requires k <= |cmds|
  {
    if k == 0 then pos else cmds[k - 1].endPos
  }

  /** Every command is its line, read from where the command before it ended, and its record
      index counts the lines before it that are not blank. */
  lemma {:induction false} CommandIsItsLine(lines: seq<string>, line: int, record: int, pos: Point, k: nat)
    requires k < |ParseFrom(lines, line, record, pos).commands|
    ensures
      var cmds := ParseFrom(lines, line, record, pos).commands;
      var c := cmds[k];
      && line < c.lineNumber <= line + |lines|
      && ReadLine(LineText(lines, c.lineNumber - line - 1), StartAt(cmds, k, pos))
         == Read(c.kind, c.endPos, c.arcCenter)
      && c.recordIndex == record + |NonBlank(lines[..c.lineNumber - line - 1])|
  {
    hide ReadLine, TrimRight, Blank, ParseFrom, NonBlank;
    NothingRead(line, record, pos);
    var cmds := ParseFrom(lines, line, record, pos).commands;
    var text := TrimRight(lines[0]);
    var r := ReadLine(text, pos);
    var next := ParseStep(lines, line, record, pos);
    var tail := ParseFrom(lines[1..], line + 1, next, Next(r, pos)).commands;
    if k == 0 && r.Read? {
      assert lines[..0] == [];
    } else {
      var j := if r.Read? then k - 1 else k;
      assert cmds[k] == tail[j];
      assert r.Read? && j > 0 ==> cmds[k - 1] == tail[j - 1];
      assert !r.Read? ==> cmds == tail;
      CommandIsItsLine(lines[1..], line + 1, next, Next(r, pos), j);
      var m := cmds[k].lineNumber - line - 1;
      assert lines[1..][m - 1] == lines[m];
      assert lines[..m][0] == lines[0] && lines[..m][1..] == lines[1..][..m - 1];
      CountStep(lines[..m]);
    }
  }

  lemma NothingRead(line: int, record: int, pos: Point)
    ensures ParseFrom([], line, record, pos).commands == [] && NonBlank([]) == []
  {
  }

  lemma CountStep(lines: seq<string>)
    requires lines != []
    ensures |NonBlank(lines)| == (if Blank(TrimRight(lines[0])) then 0 else 1) + |NonBlank(lines[1..])|
  {
  }

  /** Every line that reads as a command has one. */
  lemma {:induction false} CommandLineIsRead(lines: seq<string>, line: int, record: int, pos: Point, n: nat)
    returns (k: nat)
    requires n < |lines| && ReadLine(LineText(lines, n), ORIGIN).Read?
    ensures k < |ParseFrom(lines, line, record, pos).commands|
    ensures ParseFrom(lines, line, record, pos).commands[k].lineNumber == line + n + 1
  {
    hide ReadLine, TrimRight, Blank, ParseFrom;
    var r := ReadLine(TrimRight(lines[0]), pos);
    var next := ParseStep(lines, line, record, pos);
    ReadingIgnoresPosition(TrimRight(lines[0]), pos, ORIGIN);
    if n == 0 {
      k := 0;
    } else {
      var j := CommandLineIsRead(lines[1..], line + 1, next, Next(r, pos), n - 1);
      k := if r.Read? then j + 1 else j;
    }
  }
}
