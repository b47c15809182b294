/** The test run of the preview: commands are recoloured one by one on a standing canvas,
    and what is shown is what a full rendering at that record would show. */
module Sweep {
  import opened GCode
  import opened GCodeFile
  import opened Arith

  /** Progress colour of a command: done, current position, or its normal colour. */
  datatype Shade = Open | Live | Done

  /** The last thing painted for a command. */
  datatype Paint = Blank | Painted(kind: CommandType, start: Point, end: Point, arcCenter: Point, shade: Shade)

  /** `currentRecord` < 0 turns progress colouring off. */
  function ShadeAt(recordIndex: int, currentRecord: int): Shade {
    if currentRecord >= 0 && recordIndex >= 0 then
      if recordIndex < currentRecord then Done
      else if recordIndex == currentRecord then Live
      else Open
    else Open
  }

  /** Done are the commands of earlier records, live is the one of the current record; a
      command without a record is neither. */
  lemma ShadeMeaning(recordIndex: int, currentRecord: int)
    ensures ShadeAt(recordIndex, currentRecord) == Done <==> 0 <= recordIndex < currentRecord
    ensures ShadeAt(recordIndex, currentRecord) == Live <==> 0 <= recordIndex == currentRecord
  {
  }

  /** `renderCommand`: a command without a type paints nothing. */
  function PaintOf(c: Command, start: Point, currentRecord: int, before: Paint): Paint {
    if c.kind == NoType then before
    else Painted(c.kind, start, c.endPos, c.arcCenter, ShadeAt(c.recordIndex, currentRecord))
  }

  /** Where the tool stands before command `k` when it stood at `start` before `from`. */
  function PositionAt(cmds: seq<Command>, from: nat, start: Point, k: nat): Point
    requires from <= k <= |cmds|
  {
    if k == from then start else cmds[k - 1].endPos
  }

  /** The canvas after the commands [from, to) were painted over `canvas`. */
  function Rendered(canvas: seq<Paint>, cmds: seq<Command>, from: nat, to: nat, start: Point, currentRecord: int)
    : (r: seq<Paint>)
    requires |canvas| == |cmds| && to <= |cmds|
    ensures |r| == |cmds|
  {
    seq(|cmds|, k requires 0 <= k < |cmds| =>
      if from <= k < to then PaintOf(cmds[k], PositionAt(cmds, from, start, k), currentRecord, canvas[k]) else canvas[k])
  }

  function BlankCanvas(n: nat): seq<Paint> { seq(n, _ => Blank) }

  /** Everything painted on an empty canvas with one `currentRecord`. */
  function Direct(cmds: seq<Command>, currentRecord: int): seq<Paint> {
    Rendered(BlankCanvas(|cmds|), cmds, 0, |cmds|, ORIGIN, currentRecord)
  }

  function Least(a: nat, b: nat): nat { if a < b then a else b }

  /** Painting one command more. */
  lemma RenderedNext(canvas: seq<Paint>, cmds: seq<Command>, from: nat, i: nat, start: Point, currentRecord: int)
    requires |canvas| == |cmds| && from <= i < |cmds|
    ensures
      var now := Rendered(canvas, cmds, from, i, start, currentRecord);
      Rendered(canvas, cmds, from, i + 1, start, currentRecord)
      == now[i := PaintOf(cmds[i], PositionAt(cmds, from, start, i), currentRecord, now[i])]
  {
    hide PaintOf;
  }

  lemma RenderedNothing(canvas: seq<Paint>, cmds: seq<Command>, from: nat, to: nat, start: Point, currentRecord: int)
    requires |canvas| == |cmds| && to <= |cmds| && to <= from
    ensures Rendered(canvas, cmds, from, to, start, currentRecord) == canvas
  {
  }

  /** `renderRange`: paints into the standing image and returns the tool position. */
  method RenderRange(canvas: array<Paint>, cmds: seq<Command>, from: nat, to: nat, start: Point, currentRecord: int)
    returns (end: Point)
    requires canvas.Length == |cmds|
    modifies canvas
    ensures canvas[..] == Rendered(old(canvas[..]), cmds, from, Least(to, |cmds|), start, currentRecord)
    ensures end == if from < Least(to, |cmds|) then PositionAt(cmds, from, start, Least(to, |cmds|)) else start
  {
    hide PaintOf, Rendered;
    end := start;
    ghost var before := canvas[..];
    var last := Least(to, |cmds|);
    RenderedNothing(before, cmds, from, Least(from, last), start, currentRecord);
    var i := from;
    while i < last
      invariant i == from || from < i <= last
      invariant end == if i <= last then PositionAt(cmds, from, start, i) else start
      invariant canvas[..] == Rendered(before, cmds, from, Least(i, last), start, currentRecord)
    {
      RenderedNext(before, cmds, from, i, start, currentRecord);
      ghost var now := canvas[..];
      canvas[i] := PaintOf(cmds[i], end, currentRecord, canvas[i]);
      assert canvas[..] == now[i := PaintOf(cmds[i], end, currentRecord, now[i])];
      end := cmds[i].endPos;
      i := i + 1;
    }
  }

  /** Painting a range in two pieces, the second from where the first ended, is painting
      it at once. */
  lemma RangesCompose(canvas: seq<Paint>, cmds: seq<Command>, from: nat, mid: nat, to: nat,
                      start: Point, currentRecord: int)
    requires |canvas| == |cmds| && from <= mid <= to <= |cmds|
    ensures Rendered(Rendered(canvas, cmds, from, mid, start, currentRecord), cmds, mid, to,
                     PositionAt(cmds, from, start, mid), currentRecord)
            == Rendered(canvas, cmds, from, to, start, currentRecord)
  {
  }

  /** The segment painted for a command, whatever its colour. */
  predicate SameSegment(a: Paint, b: Paint) {
    a.Painted? && b.Painted? && b == a.(shade := b.shade)
  }

  /** Redrawing command `k` alone, from the start noted in the base pass, repeats the segment
      of the base pass and touches nothing else. */
  lemma RedrawRepeats(canvas: seq<Paint>, cmds: seq<Command>, k: nat, r: int, q: int)
    requires |canvas| == |cmds| && k < |cmds| && cmds[k].kind != NoType
    ensures
      var redrawn := Rendered(canvas, cmds, k, k + 1, PositionAt(cmds, 0, ORIGIN, k), r);
      && SameSegment(Direct(cmds, q)[k], redrawn[k])
      && redrawn[k] == Direct(cmds, r)[k]
      && forall j :: 0 <= j < |cmds| && j != k ==> redrawn[j] == canvas[j]
  {
  }

  // ---------- the sweep ----------

  /** Shade of command `i` when the first `done` commands are done and, if `live`, the
      next one is the current position. */
  function ProgressShade(i: nat, done: nat, live: bool): Shade {
    if i < done then Done else if i == done && live then Live else Open
  }

  function Progress(cmds: seq<Command>, done: nat, live: bool): (r: seq<Paint>)
    ensures |r| == |cmds|
  {
    seq(|cmds|, i requires 0 <= i < |cmds| =>
      if cmds[i].kind == NoType then Blank
      else Painted(cmds[i].kind, PositionAt(cmds, 0, ORIGIN, i), cmds[i].endPos, cmds[i].arcCenter,
                   ProgressShade(i, done, live)))
  }

  /** Commands as the file reader numbers them. */
  predicate Recorded(cmds: seq<Command>) {
    Increasing(cmds) && forall k :: 0 <= k < |cmds| ==> cmds[k].recordIndex >= 0
  }

  /** At the record of command `k` a full rendering shows the first `k` commands done and
      command `k` as the current position. */
  lemma DirectAtRecord(cmds: seq<Command>, k: nat)
    requires Recorded(cmds) && k < |cmds|
    ensures Direct(cmds, cmds[k].recordIndex) == Progress(cmds, k, true)
  {
  }

  /** "The first `n` done, the rest open" is a full rendering at the record after command
      `n` - 1, unless that record is the one of command `n`. */
  lemma DirectAfterRecord(cmds: seq<Command>, n: nat)
    requires Recorded(cmds) && 0 < n <= |cmds|
    requires n < |cmds| ==> cmds[n].kind != NoType
    ensures Direct(cmds, cmds[n - 1].recordIndex + 1) == Progress(cmds, n, false)
            <==> n == |cmds| || cmds[n].recordIndex > cmds[n - 1].recordIndex + 1
  {
    var d := Direct(cmds, cmds[n - 1].recordIndex + 1);
    if n < |cmds| && cmds[n].recordIndex == cmds[n - 1].recordIndex + 1 {
      assert d[n].shade == Live && Progress(cmds, n, false)[n].shade == Open;
    } else {
      forall i | 0 <= i < |cmds|
        ensures d[i] == Progress(cmds, n, false)[i]
      {
      }
    }
  }

  /** One recolouring: the canvas of step `k` with command `k` painted done. */
  lemma MarkDone(cmds: seq<Command>, k: nat)
    requires Recorded(cmds) && k < |cmds|
    ensures Rendered(Progress(cmds, k, true), cmds, k, k + 1, PositionAt(cmds, 0, ORIGIN, k), cmds[k].recordIndex + 1)
            == Progress(cmds, k + 1, false)
  {
  }

  /** One recolouring: command `k` painted as the current position. */
  lemma MarkLive(cmds: seq<Command>, k: nat)
    requires Recorded(cmds) && k < |cmds|
    ensures Rendered(Progress(cmds, k, false), cmds, k, k + 1, PositionAt(cmds, 0, ORIGIN, k), cmds[k].recordIndex)
            == Progress(cmds, k, true)
  {
  }

  lemma BaseIsProgress(cmds: seq<Command>)
    ensures Direct(cmds, -1) == Progress(cmds, 0, false)
  {
  }

  /** A half-resolution frame: the step it shows, whether the clock asked for it, and the
      canvas it was taken from. */
  datatype Frame = Frame(step: nat, byClock: bool, canvas: seq<Paint>)

  function Unforced(frames: seq<Frame>): nat {
    if frames == [] then 0
    else Unforced(frames[..|frames| - 1]) + (if frames[|frames| - 1].byClock then 0 else 1)
  }

  /** Every frame shows the full rendering at the record of its step. */
  predicate FramesAreDirect(frames: seq<Frame>, cmds: seq<Command>) {
    forall f :: 0 <= f < |frames| ==>
      frames[f].step < |cmds| && frames[f].canvas == Direct(cmds, cmds[frames[f].step].recordIndex)
  }

  /** Step of the last frame; the base picture counts as step 0. */
  function LastShown(frames: seq<Frame>): nat {
    if frames == [] then 0 else frames[|frames| - 1].step
  }

  /** Step shown once step `k` is over: that of the last frame up to then. */
  function ShownAt(frames: seq<Frame>, k: nat): nat {
    if frames == [] then 0
    else if frames[|frames| - 1].step <= k then frames[|frames| - 1].step
    else ShownAt(frames[..|frames| - 1], k)
  }

  /** After none of the first `n` steps does the picture lag by `chunk` steps or more. */
  predicate NeverLags(frames: seq<Frame>, n: nat, chunk: nat) {
    forall k :: 0 <= k < n ==> k < ShownAt(frames, k) + chunk
  }

  /** When the picture shown once step `k` is over was pushed. */
  function PushTimeAt(frames: seq<Frame>, clock: nat -> int, started: int, k: nat): int {
    if frames == [] then started
    else if frames[|frames| - 1].step <= k then clock(frames[|frames| - 1].step)
    else PushTimeAt(frames[..|frames| - 1], clock, started, k)
  }

  function LastPush(frames: seq<Frame>, clock: nat -> int, started: int): int {
    if frames == [] then started else clock(frames[|frames| - 1].step)
  }

  /** After none of the first `n` steps is the picture older than 90 ms by the clock read there. */
  predicate Timely(frames: seq<Frame>, clock: nat -> int, started: int, n: nat) {
    forall k :: 0 <= k < n ==> clock(k) - PushTimeAt(frames, clock, started, k) < 90
  }

  /** No frame is pushed without need: 90 ms have passed, or `chunk` steps. */
  predicate Needed(frames: seq<Frame>, clock: nat -> int, started: int, chunk: nat) {
    frames == [] ||
    var before := frames[..|frames| - 1];
    var f := frames[|frames| - 1];
    Needed(before, clock, started, chunk) &&
    if f.byClock then clock(f.step) - LastPush(before, clock, started) >= 90
    else f.step - LastShown(before) >= chunk
  }

  function StepChunk(total: nat): nat { if total / 60 < 1 then 1 else total / 60 }

  /** A chunk is a sixtieth of the sweep, rounded down, and one step at least. */
  lemma ChunkIsSixtieth(total: nat)
    ensures total >= 60 ==> 60 * StepChunk(total) <= total < 60 * (StepChunk(total) + 1)
    ensures total < 60 ==> StepChunk(total) == 1
  {
  }

  const PUSH_EVERY := 90

  /** The base pass: everything in its normal colour, one command at a time, noting where
      each command starts. */
  method BasePass(canvas: array<Paint>, cmds: seq<Command>) returns (starts: seq<Point>)
    requires canvas.Length == |cmds| && canvas[..] == BlankCanvas(|cmds|)
    modifies canvas
    ensures |starts| == |cmds|
    ensures forall k :: 0 <= k < |cmds| ==> starts[k] == PositionAt(cmds, 0, ORIGIN, k)
    ensures canvas[..] == Direct(cmds, -1)
  {
    starts := [];
    var p := ORIGIN;
    assert canvas[..] == Rendered(BlankCanvas(|cmds|), cmds, 0, 0, ORIGIN, -1);
    for k := 0 to |cmds|
      invariant |starts| == k && p == PositionAt(cmds, 0, ORIGIN, k)
      invariant forall i :: 0 <= i < k ==> starts[i] == PositionAt(cmds, 0, ORIGIN, i)
      invariant canvas[..] == Rendered(BlankCanvas(|cmds|), cmds, 0, k, ORIGIN, -1)
    {
      RangesCompose(BlankCanvas(|cmds|), cmds, 0, k, k + 1, ORIGIN, -1);
      starts := starts + [p];
      p := RenderRange(canvas, cmds, k, k + 1, p, -1);
    }
  }

  /** Sleeping between two steps, in pieces of at most 50 ms; a stop request or shutdown
      ends it early. The stop flag is up once `stopIn` ms are slept here, shutdown requested
      once `downIn` ms are. */
  method SleepStep(interval: int, stopIn: int, downIn: int) returns (slept: int, stopped: bool)
    ensures 0 <= slept && (interval > 0 ==> slept <= interval)
    ensures !stopped ==> slept >= interval || slept >= downIn
    ensures stopped ==> stopIn <= slept < interval && slept < downIn && slept % 50 == 0
    ensures slept > 0 ==> slept < stopIn + 50 && slept < downIn + 50
  {
    slept, stopped := 0, false;
    while slept < interval && slept < downIn
      invariant 0 <= slept && (interval > 0 ==> slept <= interval)
      invariant slept > 0 ==> slept < stopIn + 50 && slept < downIn + 50
      invariant slept < interval ==> slept % 50 == 0
      decreases interval - slept
    {
      if slept >= stopIn {
        stopped := true;
        return;
      }
      var chunk := if interval - slept < 50 then interval - slept else 50;
      slept := slept + chunk;
    }
  }

  /** What the canvas shows before step `k`. */
  function BeforeStep(cmds: seq<Command>, k: nat): seq<Paint> {
    if k == 0 then Progress(cmds, 0, false) else Progress(cmds, k - 1, true)
  }

  /** One recolouring step: the previous position becomes done, command `k` live. */
  method Recolour(canvas: array<Paint>, cmds: seq<Command>, starts: seq<Point>, prevK: int, k: nat)
    requires canvas.Length == |cmds| == |starts| && k < |cmds| && prevK == k - 1
    requires Recorded(cmds)
    requires forall i :: 0 <= i < |cmds| ==> starts[i] == PositionAt(cmds, 0, ORIGIN, i)
    requires canvas[..] == BeforeStep(cmds, k)
    modifies canvas
    ensures canvas[..] == Progress(cmds, k, true) == Direct(cmds, cmds[k].recordIndex)
  {
    hide Progress, Direct, Rendered, Recorded;
    if prevK >= 0 {
      MarkDone(cmds, prevK);
      var _ := RenderRange(canvas, cmds, prevK, prevK + 1, starts[prevK], cmds[prevK].recordIndex + 1);
    }
    MarkLive(cmds, k);
    var _ := RenderRange(canvas, cmds, k, k + 1, starts[k], cmds[k].recordIndex);
    DirectAtRecord(cmds, k);
  }

  /** The first step from `stopAt` on at which fast mode looks at the stop flag. */
  function StopStep(stopAt: nat): nat { (stopAt + 127) / 128 * 128 }

  lemma StopPoll(k: nat, stopAt: nat)
    ensures stopAt <= StopStep(stopAt) < stopAt + 128 && StopStep(stopAt) % 128 == 0
    ensures k <= StopStep(stopAt) && k % 128 == 0 && k >= stopAt ==> k == StopStep(stopAt)
  {
  }

  /** When the stop flag goes up, after so many ms of sleep with a positive interval, after so
      many steps otherwise; it stays up until it is taken. Shutdown comes before step `downAt`,
      `downMs` into the sleep of the step before that. */
  datatype Interrupts = Interrupts(stopAt: nat, downAt: nat, downMs: int)

  /** After `k` steps and `waited` ms of sleep. With a positive interval the steps before the
      last one sleep it out, and the sleep goes on for less than 50 ms after a stop request or
      shutdown; otherwise every 128th step looks at the stop flag. */
  predicate Paced(k: nat, waited: int, stopped: bool, interval: int, i: Interrupts) {
    if interval > 0 then
      && 0 <= waited < i.stopAt + 50
      && (stopped ==> k > 0 && waited >= i.stopAt && (k - 1) * interval <= waited < k * interval)
      && (!stopped && k < i.downAt ==> waited == k * interval)
      && (0 < k == i.downAt && i.downMs >= 0 ==> waited < (k - 1) * interval + i.downMs + 50)
    else
      waited == 0 && if stopped then k == StopStep(i.stopAt) + 1 else k <= StopStep(i.stopAt)
  }

  /** So a stop request is taken within 128 steps in fast mode, and less than 50 ms of sleep
      after it comes otherwise. */
  lemma StopIsTaken(k: nat, waited: int, stopped: bool, interval: int, i: Interrupts)
    requires Paced(k, waited, stopped, interval, i)
    ensures interval <= 0 ==> if stopped then i.stopAt < k <= i.stopAt + 128 else k < i.stopAt + 128
    ensures interval > 0 ==> waited < i.stopAt + 50 && (stopped ==> waited >= i.stopAt)
  {
  }

  lemma NothingPaced(interval: int, i: Interrupts)
    ensures Paced(0, 0, false, interval, i)
  {
  }

  /** The pause after step `k`. */
  method PauseAfter(k: nat, waited: int, interval: int, i: Interrupts) returns (now: int, stopped: bool)
    requires k < i.downAt && Paced(k, waited, false, interval, i)
    ensures Paced(k + 1, now, stopped, interval, i)
  {
    now, stopped := waited, false;
    StopPoll(k, i.stopAt);
    if interval > 0 {
      ProductStep(k, interval);
      var slept;
      slept, stopped := SleepStep(interval, i.stopAt - waited, if k + 1 < i.downAt then interval else i.downMs);
      now := now + slept;
    } else if k % 128 == 0 && k >= i.stopAt {
      stopped := true;
    }
  }

  /** The sweep over a command list. `clock` is the time read in each step, `started` the one
      before the first. `waited` are the ms slept, `frames` the animation frames; the final
      picture is the canvas at the end. */
  method TestRun(canvas: array<Paint>, cmds: seq<Command>, interval: int, i: Interrupts, clock: nat -> int,
                 started: int)
    returns (lastK: nat, stopped: bool, frames: seq<Frame>, waited: int)
    requires canvas.Length == |cmds| && canvas[..] == BlankCanvas(|cmds|)
    requires Recorded(cmds)
    modifies canvas
    ensures lastK <= Least(i.downAt, |cmds|) && (!stopped ==> lastK == Least(i.downAt, |cmds|))
    ensures !stopped ==> canvas[..] == Progress(cmds, lastK, false)
    ensures stopped ==> lastK > 0 && canvas[..] == Progress(cmds, lastK - 1, true)
    ensures FramesAreDirect(frames, cmds)
    ensures NeverLags(frames, lastK, StepChunk(|cmds|)) && Timely(frames, clock, started, lastK)
    ensures Needed(frames, clock, started, StepChunk(|cmds|))
    ensures Unforced(frames) * StepChunk(|cmds|) <= (if lastK > 0 then lastK - 1 else 0)
    ensures Paced(lastK, waited, stopped, interval, i)
  {
    hide Progress, Direct, Rendered, Recorded, BlankCanvas, NeverLags, FramesAreDirect, Unforced, LastShown,
         Timely, Needed, LastPush, Paced;
    stopped, frames, waited := false, [], 0;
    NoFrames(cmds, StepChunk(|cmds|));
    NothingPushed(clock, started, StepChunk(|cmds|));
    NothingPaced(interval, i);
    var total := |cmds|;
    var starts := BasePass(canvas, cmds);
    BaseIsProgress(cmds);
    var prevK := -1;
    var lastPush := started;
    var lastPushK := 0;
    var stepChunk := StepChunk(total);
    lastK := 0;
    var k := 0;
    while k < total && !stopped
      invariant 0 <= k <= Least(i.downAt, total) && lastK == k && prevK == k - 1
      invariant canvas[..] == BeforeStep(cmds, k)
      invariant stopped ==> k > 0
      invariant FramesAreDirect(frames, cmds) && NeverLags(frames, k, stepChunk)
      invariant Timely(frames, clock, started, k) && Needed(frames, clock, started, stepChunk)
      invariant LastPush(frames, clock, started) == lastPush
      invariant LastShown(frames) == lastPushK && 0 <= lastPushK <= (if k > 0 then k - 1 else 0)
      invariant Unforced(frames) * stepChunk <= lastPushK
      invariant Paced(k, waited, stopped, interval, i)
    {
      if k >= i.downAt {
        break;
      }
      Recolour(canvas, cmds, starts, prevK, k);
      prevK := k;
      lastK := k + 1;

      var now := clock(k);
      if now - lastPush >= PUSH_EVERY || k - lastPushK >= stepChunk {
        var frame := Frame(k, now - lastPush >= PUSH_EVERY, canvas[..]);
        FrameAdded(frames, frame, cmds, k, stepChunk);
        FramePushed(frames, frame, clock, started, k, stepChunk);
        ProductStep(Unforced(frames), stepChunk);
        frames := frames + [frame];
        lastPush := now;
        lastPushK := k;
      } else {
        FrameSkipped(frames, k, stepChunk);
        NotPushed(frames, clock, started, k);
      }

      waited, stopped := PauseAfter(k, waited, interval, i);
      k := k + 1;
    }
    if !stopped && prevK >= 0 {
      MarkDone(cmds, prevK);
      var _ := RenderRange(canvas, cmds, prevK, prevK + 1, starts[prevK], cmds[prevK].recordIndex + 1);
    }
  }

  lemma NoFrames(cmds: seq<Command>, chunk: nat)
    ensures FramesAreDirect([], cmds) && NeverLags([], 0, chunk) && LastShown([]) == 0 && Unforced([]) == 0
  {
  }

  lemma NothingPushed(clock: nat -> int, started: int, chunk: nat)
    ensures Timely([], clock, started, 0) && Needed([], clock, started, chunk)
    ensures LastPush([], clock, started) == started
  {
  }

  lemma NotPushed(frames: seq<Frame>, clock: nat -> int, started: int, k: nat)
    requires Timely(frames, clock, started, k) && LastShown(frames) <= k
    requires clock(k) - LastPush(frames, clock, started) < 90
    ensures Timely(frames, clock, started, k + 1)
  {
  }

  lemma FramePushed(frames: seq<Frame>, f: Frame, clock: nat -> int, started: int, k: nat, chunk: nat)
    requires Timely(frames, clock, started, k) && Needed(frames, clock, started, chunk) && f.step == k
    requires f.byClock <==> clock(k) - LastPush(frames, clock, started) >= 90
    requires f.byClock || k - LastShown(frames) >= chunk
    ensures Timely(frames + [f], clock, started, k + 1) && Needed(frames + [f], clock, started, chunk)
    ensures LastPush(frames + [f], clock, started) == clock(k)
  {
    var after := frames + [f];
    assert after[..|after| - 1] == frames;
    forall i | 0 <= i < k + 1
      ensures clock(i) - PushTimeAt(after, clock, started, i) < 90
    {
    }
  }

  lemma FrameSkipped(frames: seq<Frame>, k: nat, chunk: nat)
    requires NeverLags(frames, k, chunk) && LastShown(frames) <= k < LastShown(frames) + chunk
    ensures NeverLags(frames, k + 1, chunk)
  {
  }

  lemma FrameAdded(frames: seq<Frame>, f: Frame, cmds: seq<Command>, k: nat, chunk: nat)
    requires FramesAreDirect(frames, cmds) && NeverLags(frames, k, chunk) && chunk > 0
    requires f.step == k < |cmds| && f.canvas == Direct(cmds, cmds[k].recordIndex)
    ensures FramesAreDirect(frames + [f], cmds) && NeverLags(frames + [f], k + 1, chunk)
    ensures LastShown(frames + [f]) == k
    ensures Unforced(frames + [f]) == Unforced(frames) + (if f.byClock then 0 else 1)
  {
  }

  lemma QuotientBound(u: nat, c: nat, t: nat)
    requires c > 0 && u * c <= t
    ensures u <= t / c
  {
    assert t - t % c == (t / c) * c;
    if u > t / c {
      ProductStep(t / c, c);
      ProductOrder(t / c + 1, u, c);
      assert false;
    }
  }

  /** Hence at most 118 frames of any run are not asked for by the clock. */
  lemma UnforcedBound(total: nat, lastK: nat, unforced: nat)
    requires lastK <= total && unforced * StepChunk(total) <= (if lastK > 0 then lastK - 1 else 0)
    ensures total > 0 ==> unforced <= (total - 1) / StepChunk(total)
    ensures unforced <= 118
  {
    var c := StepChunk(total);
    if total > 0 {
      QuotientBound(unforced, c, total - 1);
    }
    if unforced > 118 {
      ProductOrder(119, unforced, c);
      assert false;
    }
  }
}
