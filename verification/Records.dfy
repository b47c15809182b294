/** Data records of a project file: counting them, reading them block by block, and how
    their numbers relate to the preview's record indices. */
module Records {
  import opened Text
  import opened GCode
  import opened GCodeFile
  import opened Arith

  /** The nonblank lines after the header line, trimmed. */
  function RecordsOf(lines: seq<string>): seq<string> {
    if lines == [] then [] else NonBlank(lines[1..])
  }

  method CountRecords(lines: seq<string>) returns (count: nat)
    ensures count == |RecordsOf(lines)|
  {
    hide TrimRight, Blank;
    count := 0;
    var firstLine := true;
    for n := 0 to |lines|
      invariant firstLine <==> n == 0
      invariant n > 0 ==> |RecordsOf(lines)| == count + |NonBlank(lines[n..])|
      invariant n == 0 ==> count == 0
    {
      if firstLine {
        firstLine := false;
      } else {
        assert lines[n..][1..] == lines[n + 1..];
        TrimKeepsBlank(lines[n]);
        if !Blank(lines[n]) {
          count := count + 1;
        }
      }
    }
  }

  /** The elements with an index in [lo, hi). */
  function Window<T>(s: seq<T>, lo: int, hi: int): seq<T> {
    var from := if lo < 0 then 0 else lo;
    var to := if hi > |s| then |s| else hi;
    if from < to then s[from..to] else []
  }

  lemma WindowOfNothing<T>(lo: int, hi: int)
    ensures Window<T>([], lo, hi) == []
  {
  }

  lemma WindowAppend<T>(s: seq<T>, x: T, lo: int, hi: int)
    ensures Window(s + [x], lo, hi) == Window(s, lo, hi) + (if lo <= |s| < hi then [x] else [])
  {
  }

  lemma WindowOfPrefix<T>(s: seq<T>, t: seq<T>, lo: int, hi: int)
    requires hi <= |s|
    ensures Window(s + t, lo, hi) == Window(s, lo, hi)
  {
  }

  /** The loop over the file; `seen` are the records passed so far. */
  method ReadDataBlock(lines: seq<string>, blockIndex: int, blockSize: int) returns (block: seq<string>)
    requires blockIndex >= 0
    ensures block == Window(RecordsOf(lines), blockIndex * blockSize, (blockIndex + 1) * blockSize)
  {
    hide TrimRight, Blank, Window;
    block := [];
    var lo, hi := blockIndex * blockSize, (blockIndex + 1) * blockSize;
    WindowOfNothing<string>(lo, hi);
    var firstLine := true;
    var rowCount := 0;
    ghost var seen: seq<string> := [];
    for n := 0 to |lines|
      invariant firstLine <==> n == 0
      invariant n == 0 ==> seen == []
      invariant n > 0 ==> RecordsOf(lines) == seen + NonBlank(lines[n..])
      invariant rowCount == |seen|
      invariant block == Window(seen, lo, hi)
    {
      var line := TrimRight(lines[n]);
      if firstLine {
        firstLine := false;
      } else {
        assert lines[n..][1..] == lines[n + 1..];
        if !Blank(line) {
          WindowAppend(seen, line, lo, hi);
          if rowCount >= lo && rowCount < hi {
            block := block + [line];
          }
          rowCount := rowCount + 1;
          seen := seen + [line];
          assert RecordsOf(lines) == seen + NonBlank(lines[n + 1..]);
          if rowCount >= hi {
            WindowOfPrefix(seen, NonBlank(lines[n + 1..]), lo, hi);
            return;
          }
        }
      }
    }
    assert lines != [] ==> seen + NonBlank([]) == seen;
  }

  // ---------- blocks ----------

  /** `ceil(records / blockSize)` in floating point, here over the reals. */
  function BlockCount(records: nat, blockSize: nat): int
    requires blockSize > 0
  {
    -(-(records as real / blockSize as real)).Floor
  }

  /** The block count is the least one that covers every record. */
  lemma {:induction false} BlockCountCovers(records: nat, blockSize: nat)
    requires blockSize > 0
    ensures BlockCount(records, blockSize) >= 0
    ensures (BlockCount(records, blockSize) - 1) * blockSize < records <= BlockCount(records, blockSize) * blockSize
  {
    var q := records as real / blockSize as real;
    var b := BlockCount(records, blockSize);
    assert (b - 1) as real < q <= b as real;
    TimesDivisor(b - 1, q, blockSize);
    TimesDivisor(b, q, blockSize);
    assert q * blockSize as real == records as real;
  }

  lemma TimesDivisor(b: int, q: real, d: nat)
    requires d > 0
    ensures (b * d) as real == b as real * d as real
    ensures b as real < q <==> (b * d) as real < q * d as real
  {
  }

  function BlocksUpTo(records: seq<string>, blockSize: nat, b: nat): seq<string> {
    if b == 0 then []
    else BlocksUpTo(records, blockSize, b - 1) + Window(records, (b - 1) * blockSize, b * blockSize)
  }

  lemma {:induction false} BlocksArePrefixes(records: seq<string>, blockSize: nat, b: nat)
    ensures BlocksUpTo(records, blockSize, b) == Window(records, 0, b * blockSize)
  {
    hide Window;
    WindowEmpty(records);
    if b > 0 {
      BlocksArePrefixes(records, blockSize, b - 1);
      ProductOrder(b - 1, b, blockSize);
      ProductOrder(0, b - 1, blockSize);
      WindowsJoin(records, (b - 1) * blockSize, b * blockSize);
    }
  }

  lemma WindowEmpty<T>(s: seq<T>)
    ensures Window(s, 0, 0) == []
  {
  }

  lemma WindowsJoin<T>(s: seq<T>, lo: int, hi: int)
    requires 0 <= lo <= hi
    ensures Window(s, 0, lo) + Window(s, lo, hi) == Window(s, 0, hi)
  {
  }

  /** Reading the announced number of blocks gives every record once, in order, and no
      block is empty or longer than the block size. */
  lemma BlocksPartitionRecords(records: seq<string>, blockSize: nat)
    requires blockSize > 0
    ensures BlockCount(|records|, blockSize) >= 0
    ensures BlocksUpTo(records, blockSize, BlockCount(|records|, blockSize)) == records
    ensures forall b :: 0 <= b < BlockCount(|records|, blockSize) ==>
              0 < |Window(records, b * blockSize, (b + 1) * blockSize)| <= blockSize
  {
    hide BlockCount, BlocksUpTo;
    var n := BlockCount(|records|, blockSize);
    BlockCountCovers(|records|, blockSize);
    BlocksArePrefixes(records, blockSize, n);
    assert Window(records, 0, n * blockSize) == records;
    forall b | 0 <= b < n
      ensures 0 < |Window(records, b * blockSize, (b + 1) * blockSize)| <= blockSize
    {
      ProductOrder(b, n - 1, blockSize);
      ProductOrder(0, b, blockSize);
      ProductStep(b, blockSize);
      WindowSize(records, b * blockSize, (b + 1) * blockSize);
    }
  }

  lemma WindowSize<T>(s: seq<T>, lo: int, hi: int)
    requires 0 <= lo < |s| && lo < hi
    ensures 0 < |Window(s, lo, hi)| <= hi - lo
  {
  }

  // ---------- record numbers ----------

  /** The preview numbers the nonblank lines from the first line on, the transfer from the
      second: the two numberings name the same lines exactly when the first line is blank. */
  lemma {:induction false} NumberingsAgree(lines: seq<string>)
    ensures NonBlank(lines) == RecordsOf(lines) <==> lines == [] || Blank(lines[0])
    ensures lines != [] && !Blank(lines[0]) ==> NonBlank(lines)[1..] == RecordsOf(lines)
  {
    if lines != [] {
      TrimKeepsBlank(lines[0]);
      if !Blank(lines[0]) {
        assert |NonBlank(lines)| == |RecordsOf(lines)| + 1;
      }
    }
  }

  lemma NothingParsed()
    ensures Parse([]).commands == []
  {
  }

  /** The record with a command's index is the line the command was read from when the
      first line is blank, and the one after it in the file otherwise. */
  lemma CommandsAgainstRecords(lines: seq<string>, k: nat)
    requires k < |Parse(lines).commands|
    ensures
      var c := Parse(lines).commands[k];
      var shift := if Blank(lines[0]) then 0 else 1;
      && lines != []
      && 0 <= c.recordIndex < |RecordsOf(lines)| + shift
      && (c.recordIndex >= shift ==> ReadsAs(RecordsOf(lines)[c.recordIndex - shift], c))
  {
    hide TrimRight, Blank, ParseFrom, ReadLine, ReadsAs, Increasing, NonBlank, RecordsOf;
    NothingParsed();
    CommandsNameTheirRecord(lines, 0, 0, ORIGIN);
    NumberingsAgree(lines);
    var c := Parse(lines).commands[k];
    if !Blank(lines[0]) && c.recordIndex >= 1 {
      assert NonBlank(lines)[1..][c.recordIndex - 1] == NonBlank(lines)[c.recordIndex];
    }
  }
}
