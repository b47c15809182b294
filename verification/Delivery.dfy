/** What the PLC gets for a whole file, against what the preview draws for it. */
module Delivery {
  import opened Text
  import opened ArcFlatten
  import opened GCode
  import opened GCodeFile
  import opened Records
  import opened Transfer

  /** The same segment, from the line that carries the record; the centre only matters for
      arcs. `offset` leads from a line of the delivered data to the preview's record index. */
  predicate SameCommand(sent: Command, shown: Command, offset: int) {
    && sent.kind == shown.kind && sent.endPos == shown.endPos
    && sent.lineNumber + offset == shown.recordIndex
    && (sent.IsArc() ==> sent.arcCenter == shown.arcCenter)
  }

  predicate SamePath(sent: seq<Command>, shown: seq<Command>, offset: int) {
    |sent| == |shown| && forall k :: 0 <= k < |sent| ==> SameCommand(sent[k], shown[k], offset)
  }

  predicate AllAgree(records: seq<string>, a: real, b: real) {
    forall k :: 0 <= k < |records| ==> FormsAgreeOn(records[k], a, b)
  }

  lemma AllAgreeStep(text: string, rest: seq<string>, a: real, b: real)
    ensures AllAgree([text] + rest, a, b) <==> FormsAgreeOn(text, a, b) && AllAgree(rest, a, b)
  {
    hide FormsAgreeOn;
    var all := [text] + rest;
    assert all[0] == text && forall k :: 0 <= k < |rest| ==> all[k + 1] == rest[k];
    if AllAgree(all, a, b) {
      forall k | 0 <= k < |rest|
        ensures FormsAgreeOn(rest[k], a, b)
      {
        assert FormsAgreeOn(all[k + 1], a, b);
      }
    }
  }

  lemma ConsSame(a: Command, s: seq<Command>, b: Command, t: seq<Command>, offset: int)
    ensures SamePath([a] + s, [b] + t, offset) <==> SameCommand(a, b, offset) && SamePath(s, t, offset)
  {
    hide SameCommand;
    assert ([a] + s)[0] == a && ([b] + t)[0] == b;
    if SamePath([a] + s, [b] + t, offset) {
      forall k | 0 <= k < |s|
        ensures SameCommand(s[k], t[k], offset)
      {
        assert ([a] + s)[k + 1] == s[k] && ([b] + t)[k + 1] == t[k];
      }
    }
  }

  lemma FlattenFirst(b: Command, bs: seq<Command>, threshold: real)
    ensures FlattenCommands([b] + bs, threshold) == [FlattenCommand(b, threshold)] + FlattenCommands(bs, threshold)
    ensures bs != [] ==> FlattenCommands(bs, threshold)[0].recordIndex == bs[0].recordIndex
  {
  }

  lemma FlattenAllFirst(text: string, rest: seq<string>, threshold: real)
    ensures FlattenAll([text] + rest, threshold) == [FlattenLine(text, threshold)] + FlattenAll(rest, threshold)
  {
    hide FlattenLine;
  }

  lemma HeadsApart(sent: seq<Command>, shown: seq<Command>, offset: int)
    requires sent != [] || shown != []
    requires sent != [] && shown != [] ==> sent[0].lineNumber + offset != shown[0].recordIndex
    ensures !SamePath(sent, shown, offset)
  {
  }

  lemma NonBlankStep(lines: seq<string>)
    requires lines != []
    ensures NonBlank(lines)
            == (if Blank(TrimRight(lines[0])) then [] else [TrimRight(lines[0])]) + NonBlank(lines[1..])
  {
  }

  /** A reading in front of the commands that follow. */
  function Cons(r: Reading, line: int, record: int, rest: seq<Command>): seq<Command> {
    (if r.Read? then [Command(r.kind, r.endPos, r.arcCenter, line, record)] else []) + rest
  }

  lemma BothDraw(r: Reading, b: Reading, threshold: real, sent: seq<Command>, shown: seq<Command>, sentLine: int,
                 sentRecord: int, line: int, record: int)
    requires r.Read? && b.Read?
    ensures SamePath(Cons(r, sentLine, sentRecord, sent), FlattenCommands(Cons(b, line, record, shown), threshold),
                     record - sentLine)
            <==> SameDrawing(r, FlattenReading(b, threshold)) &&
                 SamePath(sent, FlattenCommands(shown, threshold), record - sentLine)
  {
    var a := Command(r.kind, r.endPos, r.arcCenter, sentLine, sentRecord);
    var c := Command(b.kind, b.endPos, b.arcCenter, line, record);
    FlattenFirst(c, shown, threshold);
    ConsSame(a, sent, FlattenCommand(c, threshold), FlattenCommands(shown, threshold), record - sentLine);
    hide SamePath, FlattenCommands;
  }

  lemma NeitherDraws(r: Reading, b: Reading, threshold: real)
    requires !r.Read? && !b.Read?
    ensures SameDrawing(r, FlattenReading(b, threshold))
  {
  }

  /** A command that only one side draws is never made up for later. */
  lemma OneDraws(r: Reading, b: Reading, threshold: real, sent: seq<Command>, shown: seq<Command>, sentLine: int,
                 sentRecord: int, line: int, record: int)
    requires r.Read? != b.Read?
    requires sent != [] ==> sent[0].lineNumber > sentLine
    requires shown != [] ==> shown[0].recordIndex > record
    ensures !SameDrawing(r, FlattenReading(b, threshold))
    ensures !SamePath(Cons(r, sentLine, sentRecord, sent), FlattenCommands(Cons(b, line, record, shown), threshold),
                      record - sentLine)
  {
    HeadsApart(Cons(r, sentLine, sentRecord, sent), FlattenCommands(Cons(b, line, record, shown), threshold),
               record - sentLine);
    hide SamePath;
  }

  lemma NothingIsDelivered(a: real, b: real, line: int, record: int, sentLine: int, sentRecord: int, pos: Point)
    ensures SamePath(ParseFrom(FlattenAll(NonBlank([]), a), sentLine, sentRecord, pos).commands,
                     FlattenCommands(ParseFrom([], line, record, pos).commands, b), record - sentLine - 1)
    ensures AllAgree(NonBlank([]), a, b) && NonBlank([]) == []
  {
  }

  /** One line that is not blank: its record decides about the heads, the rest goes on. */
  lemma RecordStep(lines: seq<string>, a: real, b: real, line: int, record: int, sentLine: int, sentRecord: int,
                   pos: Point) returns (n: int)
    requires lines != [] && !Blank(TrimRight(lines[0]))
    ensures
      var text := TrimRight(lines[0]);
      var end := Next(ReadLine(text, pos), pos);
      SamePath(ParseFrom(FlattenAll(NonBlank(lines), a), sentLine, sentRecord, pos).commands,
               FlattenCommands(ParseFrom(lines, line, record, pos).commands, b), record - sentLine - 1)
      <==> FormsAgreeOn(text, a, b) &&
           SamePath(ParseFrom(FlattenAll(NonBlank(lines[1..]), a), sentLine + 1, n, end).commands,
                    FlattenCommands(ParseFrom(lines[1..], line + 1, record + 1, end).commands, b),
                    record - sentLine - 1)
  {
    hide ReadLine, TrimRight, FlattenLine, FormsAgreeOn, Blank, SamePath, FlattenCommands, FlattenAll, ParseFrom,
         NonBlank, SameDrawing;
    var text := TrimRight(lines[0]);
    NonBlankStep(lines);
    var rest := NonBlank(lines[1..]);
    var sent := FlattenAll(NonBlank(lines), a);
    FlattenAllFirst(text, rest, a);
    assert sent[0] == FlattenLine(text, a) && sent[1..] == FlattenAll(rest, a);
    TrimTwice(lines[0]);
    SentIsTrimmed(text, a);
    n := ParseStep(sent, sentLine, sentRecord, pos);
    var m := ParseStep(lines, line, record, pos);
    var r, q := ReadLine(sent[0], pos), ReadLine(text, pos);
    var sentTail := ParseFrom(sent[1..], sentLine + 1, n, Next(r, pos)).commands;
    var shownTail := ParseFrom(lines[1..], line + 1, record + 1, Next(q, pos)).commands;
    CommandsComeLater(sent[1..], sentLine + 1, n, Next(r, pos));
    CommandsComeLater(lines[1..], line + 1, record + 1, Next(q, pos));
    LineAndCommandFormsAgree(text, a, b, pos);
    if r.Read? && q.Read? {
      CommandFormsAgree(text, a, b, pos);
      BothDraw(r, q, b, sentTail, shownTail, sentLine + 1, sentRecord, line + 1, record);
    } else if !r.Read? && !q.Read? {
      NeitherDraws(r, q, b);
      assert [] + sentTail == sentTail && [] + shownTail == shownTail;
    } else {
      OneDraws(r, q, b, sentTail, shownTail, sentLine + 1, sentRecord, line + 1, record);
    }
  }

  /** From any line and position: the delivered data draws what the preview draws for the
      same lines, exactly when every record meets the guard. */
  lemma {:induction false} DeliveredFrom(lines: seq<string>, a: real, b: real, line: int, record: int, sentLine: int,
                                         sentRecord: int, pos: Point)
    ensures SamePath(ParseFrom(FlattenAll(NonBlank(lines), a), sentLine, sentRecord, pos).commands,
                     FlattenCommands(ParseFrom(lines, line, record, pos).commands, b),
                     record - sentLine - 1)
            <==> AllAgree(NonBlank(lines), a, b)
  {
    hide ReadLine, TrimRight, FormsAgreeOn, Blank, SamePath, FlattenCommands, AllAgree, FlattenAll, ParseFrom,
         NonBlank;
    if lines == [] {
      NothingIsDelivered(a, b, line, record, sentLine, sentRecord, pos);
    } else {
      var text := TrimRight(lines[0]);
      NonBlankStep(lines);
      if Blank(text) {
        var n := ParseStep(lines, line, record, pos);
        assert NonBlank(lines) == NonBlank(lines[1..]);
        var tail := ParseFrom(lines[1..], line + 1, n, pos).commands;
        assert [] + tail == tail;
        DeliveredFrom(lines[1..], a, b, line + 1, record, sentLine, sentRecord, pos);
      } else {
        var n := RecordStep(lines, a, b, line, record, sentLine, sentRecord, pos);
        AllAgreeStep(text, NonBlank(lines[1..]), a, b);
        DeliveredFrom(lines[1..], a, b, line + 1, record + 1, sentLine + 1, n, Next(ReadLine(text, pos), pos));
      }
    }
  }

  // ---------- whole files ----------

  /** What a completed transfer delivers. */
  function Delivered(lines: seq<string>, threshold: real): seq<string> {
    FlattenAll(RecordsOf(lines), threshold)
  }

  /** The preview counts a first line that is not blank, the transfer does not. */
  function IndexOffset(lines: seq<string>): int {
    if lines == [] || Blank(lines[0]) then -1 else 0
  }

  /** The first line, which is never sent, is no command; every record meets the guard. */
  predicate FileGuard(lines: seq<string>, a: real, b: real) {
    && (lines == [] || !ReadLine(TrimRight(lines[0]), ORIGIN).Read?)
    && AllAgree(RecordsOf(lines), a, b)
  }

  /** For every file, sent with threshold `a` and shown with threshold `b`: the delivered data
      draws the preview's picture, command by command and record by record, exactly when the
      file meets the guard. */
  lemma DeliveryDrawsThePreview(lines: seq<string>, a: real, b: real)
    ensures SamePath(Parse(Delivered(lines, a)).commands, FlattenCommands(Parse(lines).commands, b),
                     IndexOffset(lines))
            <==> FileGuard(lines, a, b)
  {
    hide ReadLine, TrimRight, FlattenLine, FormsAgreeOn, Blank, SamePath, FlattenAll, ParseFrom, NonBlank, AllAgree;
    var sent := Delivered(lines, a);
    if lines == [] {
      assert RecordsOf(lines) == [];
      NothingIsDelivered(a, b, 0, 0, 0, 0, ORIGIN);
    } else {
      TrimKeepsBlank(lines[0]);
      var head := ReadLine(TrimRight(lines[0]), ORIGIN);
      var next := ParseStep(lines, 0, 0, ORIGIN);
      if head.Read? {
        CommandsComeLater(sent, 0, 0, ORIGIN);
        HeadsApart(Parse(sent).commands, FlattenCommands(Parse(lines).commands, b), IndexOffset(lines));
      } else {
        var tail := ParseFrom(lines[1..], 1, next, ORIGIN).commands;
        assert [] + tail == tail;
        DeliveredFrom(lines[1..], a, b, 1, next, 0, 0, ORIGIN);
      }
    }
  }

  /** So it is for the blocks of a transfer that has sent them all. */
  lemma CompletedTransferDrawsThePreview(lines: seq<string>, blockSize: nat, a: real, b: real, sent: seq<seq<string>>)
    requires blockSize > 0 && InOrder(sent, RecordsOf(lines), blockSize, a)
    requires |sent| == BlockCount(|RecordsOf(lines)|, blockSize)
    ensures SamePath(Parse(Concat(sent)).commands, FlattenCommands(Parse(lines).commands, b),
                     IndexOffset(lines))
            <==> FileGuard(lines, a, b)
  {
    hide InOrder, Concat, RecordsOf, SamePath, FileGuard, Parse, FlattenCommands, BlockCount, FlattenAll;
    SentSoFar(sent, RecordsOf(lines), blockSize, a);
    BlocksPartitionRecords(RecordsOf(lines), blockSize);
    DeliveryDrawsThePreview(lines, a, b);
  }
}
