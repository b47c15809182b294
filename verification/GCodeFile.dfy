/** Whole files: the preview's command list, its record numbers, and the command form of
    flattening. */
module GCodeFile {
  import opened Text
  import opened ArcFlatten
  import opened GCode

  /** The file reads without error when `errorLines` is empty. */
  datatype ParseResult = ParseResult(commands: seq<Command>, errorLines: seq<int>)

  function Prepend(c: Command, r: ParseResult): ParseResult {
    r.(commands := [c] + r.commands)
  }

  /** Lines from number `line` + 1 on, with the next record index and tool position. */
  function ParseFrom(lines: seq<string>, line: int, record: int, pos: Point): ParseResult {
    if lines == [] then ParseResult([], [])
    else
      var text := TrimRight(lines[0]);
      if Blank(text) then ParseFrom(lines[1..], line + 1, record, pos)
      else
        match ReadLine(text, pos)
        case Skipped => ParseFrom(lines[1..], line + 1, record + 1, pos)
        case Bad =>
          var r := ParseFrom(lines[1..], line + 1, record + 1, pos);
          r.(errorLines := [line + 1] + r.errorLines)
        case Read(kind, end, centre) =>
          Prepend(Command(kind, end, centre, line + 1, record), ParseFrom(lines[1..], line + 1, record + 1, end))
  }

  function Parse(lines: seq<string>): ParseResult {
    ParseFrom(lines, 0, 0, ORIGIN)
  }

  method ParseFile(lines: seq<string>) returns (result: ParseResult)
    ensures result == Parse(lines)
  {
    var commands, errorLines := [], [];
    var recordIndex := 0;
    var pos := ORIGIN;
    for n := 0 to |lines|
      invariant
        var rest := ParseFrom(lines[n..], n, recordIndex, pos);
        Parse(lines) == ParseResult(commands + rest.commands, errorLines + rest.errorLines)
    {
      assert lines[n..][1..] == lines[n + 1..];
      var line := TrimRight(lines[n]);
      if !Blank(line) {
        var thisRecord := recordIndex;
        recordIndex := recordIndex + 1;
        match ReadLine(line, pos)
        case Skipped =>
        case Bad =>
          errorLines := errorLines + [n + 1];
        case Read(kind, end, centre) =>
          commands := commands + [Command(kind, end, centre, n + 1, thisRecord)];
          pos := end;
      }
    }
    result := ParseResult(commands, errorLines);
  }

  // ---------- record numbering ----------

  /** The trimmed lines that are not blank. */
  function NonBlank(lines: seq<string>): seq<string> {
    if lines == [] then []
    else (if Blank(TrimRight(lines[0])) then [] else [TrimRight(lines[0])]) + NonBlank(lines[1..])
  }

  predicate Increasing(cmds: seq<Command>) {
    forall i, j :: 0 <= i < j < |cmds| ==> cmds[i].recordIndex < cmds[j].recordIndex
  }

  ghost predicate ReadsAs(text: string, c: Command) {
    exists pos :: ReadLine(text, pos) == Read(c.kind, c.endPos, c.arcCenter)
  }

  /** Every record index is that of the nonblank line the command was read from. */
  ghost predicate Numbered(cmds: seq<Command>, texts: seq<string>, record: int) {
    forall k :: 0 <= k < |cmds| ==>
      record <= cmds[k].recordIndex < record + |texts| && ReadsAs(texts[cmds[k].recordIndex - record], cmds[k])
  }

  lemma NumberedLater(cmds: seq<Command>, text: string, texts: seq<string>, record: int)
    requires Numbered(cmds, texts, record + 1)
    ensures Numbered(cmds, [text] + texts, record)
  {
  }

  lemma NothingNumbered(record: int)
    ensures Increasing([]) && Numbered([], [], record)
  {
  }

  lemma NumberedFirst(c: Command, cmds: seq<Command>, text: string, texts: seq<string>, record: int, pos: Point)
    requires Increasing(cmds) && Numbered(cmds, texts, record + 1)
    requires c.recordIndex == record && ReadLine(text, pos) == Read(c.kind, c.endPos, c.arcCenter)
    ensures Increasing([c] + cmds) && Numbered([c] + cmds, [text] + texts, record)
  {
    hide ReadLine;
    NumberedLater(cmds, text, texts, record);
    assert ReadsAs(text, c);
    hide ReadsAs;
    assert ([text] + texts)[0] == text;
  }

  /** Record indices strictly increase, start at `record`, and name the nonblank line
      that the command was read from. */
  lemma {:induction false} CommandsNameTheirRecord(lines: seq<string>, line: int, record: int, pos: Point)
    ensures Increasing(ParseFrom(lines, line, record, pos).commands)
    ensures Numbered(ParseFrom(lines, line, record, pos).commands, NonBlank(lines), record)
  {
    hide ReadLine, TrimRight, Blank, Numbered, Increasing;
    if lines == [] {
      NothingNumbered(record);
    } else {
      var text := TrimRight(lines[0]);
      if Blank(text) {
        CommandsNameTheirRecord(lines[1..], line + 1, record, pos);
        assert NonBlank(lines) == NonBlank(lines[1..]);
      } else {
        var r := ReadLine(text, pos);
        var next := if r.Read? then r.endPos else pos;
        CommandsNameTheirRecord(lines[1..], line + 1, record + 1, next);
        var tail := ParseFrom(lines[1..], line + 1, record + 1, next).commands;
        assert NonBlank(lines) == [text] + NonBlank(lines[1..]);
        NumberedLater(tail, text, NonBlank(lines[1..]), record);
        if r.Read? {
          var c := Command(r.kind, r.endPos, r.arcCenter, line + 1, record);
          NumberedFirst(c, tail, text, NonBlank(lines[1..]), record, pos);
        }
      }
    }
  }

  // ---------- both forms on a whole file ----------

  function FlattenCommand(c: Command, threshold: real): Command {
    c.(kind := FlattenKind(c.kind, c.arcCenter, threshold))
  }

  function FlattenCommands(cmds: seq<Command>, threshold: real): (out: seq<Command>)
    ensures |out| == |cmds|
  {
    seq(|cmds|, k requires 0 <= k < |cmds| => FlattenCommand(cmds[k], threshold))
  }

  method FlattenCommandsMM(cmds: seq<Command>, thresholdMM: real) returns (out: seq<Command>)
    ensures out == FlattenCommands(cmds, thresholdMM)
  {
    out := cmds;
    if thresholdMM <= 0.0 {
      return;
    }
    for k := 0 to |out|
      invariant |out| == |cmds|
      invariant forall i :: 0 <= i < k ==> out[i] == FlattenCommand(cmds[i], thresholdMM)
      invariant forall i :: k <= i < |cmds| ==> out[i] == cmds[i]
    {
      if out[k].kind == G02 || out[k].kind == G03 {
        if SmallArc(out[k].arcCenter.x, out[k].arcCenter.y, thresholdMM) {
          out := out[k := out[k].(kind := G01)];
        }
      }
    }
  }

  lemma JoinedIsTrimmed(ts: seq<string>)
    requires AllWords(ts) && ts != []
    ensures TrimRight(Join(ts)) == Join(ts)
  {
    hide Join;
    JoinEndsInWord(ts);
    var last := Join(ts)[|Join(ts)| - 1];
    assert IsLineEnd(last) ==> IsSpace(last);
  }

  /** What goes out for a trimmed line is trimmed. */
  lemma SentIsTrimmed(text: string, threshold: real)
    requires TrimRight(text) == text
    ensures TrimRight(FlattenLine(text, threshold)) == FlattenLine(text, threshold)
  {
    hide TrimRight, Tokens, LastArc, Join, Rewrite;
    var ts := Tokens(text);
    TokensAreWords(text);
    RewriteEmitsNoOffsets(ts, LastArc(ts));
    if Fires(ts, threshold) {
      NothingIsTrimmed();
      if Rewritten(ts) != [] {
        JoinedIsTrimmed(Rewritten(ts));
      }
    }
  }

  lemma NothingIsTrimmed()
    ensures Join([]) == "" && TrimRight("") == ""
  {
  }

  lemma TrimTwice(s: string)
    ensures TrimRight(TrimRight(s)) == TrimRight(s)
  {
  }

  lemma BlankIsSkipped(line: string, pos: Point)
    requires Blank(line)
    ensures ReadLine(line, pos).Skipped?
  {
    BlankHasNoTokens(line);
  }

  function Next(r: Reading, pos: Point): Point { if r.Read? then r.endPos else pos }

  /** What the first line adds to the command list. */
  lemma ParseStep(lines: seq<string>, line: int, record: int, pos: Point) returns (next: int)
    requires lines != []
    ensures next == if Blank(TrimRight(lines[0])) then record else record + 1
    ensures Blank(TrimRight(lines[0])) ==> ReadLine(TrimRight(lines[0]), pos).Skipped?
    ensures
      var r := ReadLine(TrimRight(lines[0]), pos);
      ParseFrom(lines, line, record, pos).commands
      == (if r.Read? then [Command(r.kind, r.endPos, r.arcCenter, line + 1, record)] else [])
         + ParseFrom(lines[1..], line + 1, next, Next(r, pos)).commands
  {
    hide ReadLine, TrimRight, Blank;
    next := record;
    if Blank(TrimRight(lines[0])) {
      BlankIsSkipped(TrimRight(lines[0]), pos);
    } else {
      next := record + 1;
    }
  }

  /** The first command comes from a later line and has a later record. */
  lemma {:induction false} CommandsComeLater(lines: seq<string>, line: int, record: int, pos: Point)
    ensures
      var cmds := ParseFrom(lines, line, record, pos).commands;
      cmds != [] ==> cmds[0].lineNumber > line && cmds[0].recordIndex >= record
  {
    hide ReadLine, TrimRight, Blank;
    if lines != [] {
      var r := ReadLine(TrimRight(lines[0]), pos);
      CommandsComeLater(lines[1..], line + 1, record, pos);
      CommandsComeLater(lines[1..], line + 1, record + 1, Next(r, pos));
    }
  }
}
