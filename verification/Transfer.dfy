/** Sending a project to the PLC: block by block, on request, small arcs flattened. */
module Transfer {
  import opened Text
  import opened Int16
  import opened ArcFlatten
  import opened GCodeFile
  import opened Records
  import opened Arith

  function FlattenAll(lines: seq<string>, threshold: real): (r: seq<string>)
    ensures |r| == |lines|
  {
    seq(|lines|, k requires 0 <= k < |lines| => FlattenLine(lines[k], threshold))
  }

  method FlattenBlock(block: seq<string>, threshold: real) returns (out: seq<string>)
    ensures out == FlattenAll(block, threshold)
  {
    hide FlattenLine;
    out := block;
    for k := 0 to |out|
      invariant |out| == |block|
      invariant forall i :: 0 <= i < k ==> out[i] == FlattenLine(block[i], threshold)
      invariant forall i :: k <= i < |block| ==> out[i] == block[i]
    {
      var line := FlattenArcLine(out[k], threshold);
      out := out[k := line];
    }
  }

  /** One turn of the waiting loop: the keep-alive answer, whether 30 s passed without a
      block, whether the PLC aborts, whether it asks for a block, whether writing it works. */
  datatype Poll = Poll(keepAlive: bool, timedOut: bool, abort: bool, readData: bool, writeOk: bool)

  datatype Ending = Completed | Aborted | StillWaiting

  /** Block `b` as it is sent. */
  function SentBlock(records: seq<string>, blockSize: nat, threshold: real, b: nat): seq<string> {
    FlattenAll(Window(records, b * blockSize, (b + 1) * blockSize), threshold)
  }

  function Concat(blocks: seq<seq<string>>): seq<string> {
    if blocks == [] then [] else Concat(blocks[..|blocks| - 1]) + blocks[|blocks| - 1]
  }

  /** Blocks 0, 1, 2, ... in order, each once. */
  predicate InOrder(sent: seq<seq<string>>, records: seq<string>, blockSize: nat, threshold: real) {
    forall b :: 0 <= b < |sent| ==> sent[b] == SentBlock(records, blockSize, threshold, b)
  }

  /** Any prefix of the blocks, sent in order, is the flattened prefix of the records. */
  lemma {:induction false} SentSoFar(sent: seq<seq<string>>, records: seq<string>, blockSize: nat, threshold: real)
    requires InOrder(sent, records, blockSize, threshold)
    ensures Concat(sent) == FlattenAll(BlocksUpTo(records, blockSize, |sent|), threshold)
  {
    hide FlattenLine, Window;
    if sent != [] {
      var n := |sent| - 1;
      SentSoFar(sent[..n], records, blockSize, threshold);
      assert sent[n] == SentBlock(records, blockSize, threshold, n);
    }
  }

  /** The poll ends the transfer without a result. */
  predicate Fails(p: Poll) { !p.keepAlive || p.timedOut || p.abort || (p.readData && !p.writeOk) }

  /** The failing poll has announced its block already. */
  predicate WriteFails(p: Poll) { p.keepAlive && !p.timedOut && !p.abort && p.readData && !p.writeOk }

  /** The first failing poll, or their number. */
  function FirstFailure(polls: seq<Poll>): (f: nat)
    ensures f <= |polls|
  {
    if polls == [] || Fails(polls[0]) then 0 else 1 + FirstFailure(polls[1..])
  }

  /** How many polls ask for a block. */
  function Requests(polls: seq<Poll>): nat {
    if polls == [] then 0 else (if polls[0].readData then 1 else 0) + Requests(polls[1..])
  }

  /** Blocks asked for before the first failing poll. */
  function Asked(polls: seq<Poll>): nat { Requests(polls[..FirstFailure(polls)]) }

  lemma AskedStep(polls: seq<Poll>)
    requires polls != []
    ensures Fails(polls[0]) ==> Asked(polls) == 0 && FirstFailure(polls) == 0
    ensures !Fails(polls[0]) ==>
              Asked(polls) == (if polls[0].readData then 1 else 0) + Asked(polls[1..]) &&
              FirstFailure(polls) == FirstFailure(polls[1..]) + 1
  {
    if !Fails(polls[0]) {
      var f := FirstFailure(polls);
      assert polls[..f][1..] == polls[1..][..f - 1];
    }
  }

  /** The first failing poll is the first one of which the PLC or the link spoils the turn. */
  lemma {:induction false} FirstFailureIsFirst(polls: seq<Poll>)
    ensures FirstFailure(polls) < |polls| ==>
              var p := polls[FirstFailure(polls)]; !p.keepAlive || p.timedOut || p.abort || (p.readData && !p.writeOk)
    ensures forall n :: 0 <= n < FirstFailure(polls) ==>
              var p := polls[n]; p.keepAlive && !p.timedOut && !p.abort && (p.readData ==> p.writeOk)
  {
    if polls != [] && !Fails(polls[0]) {
      FirstFailureIsFirst(polls[1..]);
      assert forall n :: 1 <= n < |polls| ==> polls[n] == polls[1..][n - 1];
    }
  }

  /** The transfer over a list of polls. `indices` are the values written to IndexData. The
      blocks asked for before the first failing poll are sent, as far as there are any; the
      transfer is complete exactly if they are all, and aborted exactly if not and a poll
      fails. */
  method TransferBlocks(lines: seq<string>, blockSize: nat, threshold: real, polls: seq<Poll>)
    returns (announced: int, sent: seq<seq<string>>, indices: seq<int>, ending: Ending)
    requires blockSize > 0 && RecordsOf(lines) != []
    ensures announced == ToInt16(BlockCount(|RecordsOf(lines)|, blockSize))
    ensures InOrder(sent, RecordsOf(lines), blockSize, threshold)
    ensures forall b :: 0 <= b < |indices| ==> indices[b] == ToInt16(b + 1)
    ensures
      var blocks := BlockCount(|RecordsOf(lines)|, blockSize);
      && |sent| == (if Asked(polls) < blocks then Asked(polls) else blocks)
      && (ending == Completed <==> |sent| == blocks)
      && (ending == Aborted <==> |sent| < blocks && FirstFailure(polls) < |polls|)
    ensures |indices| == |sent| + (if ending == Aborted && WriteFails(polls[FirstFailure(polls)]) then 1 else 0)
    ensures ending == Completed ==> Concat(sent) == FlattenAll(RecordsOf(lines), threshold)
  {
    hide FlattenLine, RecordsOf, Window, BlockCount, Asked, FirstFailure, InOrder;
    var recordCount := CountRecords(lines);
    var blocks := BlockCount(recordCount, blockSize);
    BlocksPartitionRecords(RecordsOf(lines), blockSize);
    BlockCountCovers(recordCount, blockSize);
    announced := ToInt16(blocks);
    sent, indices, ending := [], [], StillWaiting;
    NothingSent(RecordsOf(lines), blockSize, threshold);
    assert polls[0..] == polls;
    var currentBlock := 0;
    for n := 0 to |polls|
      invariant ending == StillWaiting && 0 <= currentBlock < blocks
      invariant |sent| == |indices| == currentBlock && InOrder(sent, RecordsOf(lines), blockSize, threshold)
      invariant forall b :: 0 <= b < |indices| ==> indices[b] == ToInt16(b + 1)
      invariant Asked(polls) == currentBlock + Asked(polls[n..])
      invariant FirstFailure(polls) == n + FirstFailure(polls[n..])
    {
      var p := polls[n];
      AskedStep(polls[n..]);
      assert polls[n..][1..] == polls[n + 1..];
      if !p.keepAlive || p.timedOut || p.abort {
        ending := Aborted;
        return;
      }
      if p.readData {
        indices := indices + [ToInt16(currentBlock + 1)];
        var block := ReadDataBlock(lines, currentBlock, blockSize);
        block := FlattenBlock(block, threshold);
        if !p.writeOk {
          ending := Aborted;
          return;
        }
        OneMoreSent(sent, block, RecordsOf(lines), blockSize, threshold);
        sent := sent + [block];
        currentBlock := currentBlock + 1;
      }
      if currentBlock >= blocks {
        ending := Completed;
        SentSoFar(sent, RecordsOf(lines), blockSize, threshold);
        return;
      }
    }
    NothingAsked();
    assert polls[|polls|..] == [];
  }

  lemma NothingAsked()
    ensures Asked([]) == 0 && FirstFailure([]) == 0
  {
  }

  lemma NothingSent(records: seq<string>, blockSize: nat, threshold: real)
    ensures InOrder([], records, blockSize, threshold)
  {
  }

  lemma OneMoreSent(sent: seq<seq<string>>, block: seq<string>, records: seq<string>, blockSize: nat, threshold: real)
    requires InOrder(sent, records, blockSize, threshold)
    requires block == SentBlock(records, blockSize, threshold, |sent|)
    ensures InOrder(sent + [block], records, blockSize, threshold)
  {
    hide SentBlock;
  }

  /** The PLC is told the true number of blocks exactly when it fits an INT. */
  lemma AnnouncedIsTrue(records: nat, blockSize: nat)
    requires blockSize > 0
    ensures ToInt16(BlockCount(records, blockSize)) == BlockCount(records, blockSize) <==> records <= 32767 * blockSize
  {
    hide BlockCount;
    BlockCountCovers(records, blockSize);
    var b := BlockCount(records, blockSize);
    if b <= 32767 {
      ProductOrder(b, 32767, blockSize);
    } else {
      ProductOrder(32767, b - 1, blockSize);
    }
  }
}
