/** The preview worker's jobs: read the file, flatten in millimetres, fit, draw. */
module Preview {
  import opened Text
  import opened Reals
  import opened ArcFlatten
  import opened GCode
  import opened GCodeFile
  import Fit
  import Sweep

  const MARGIN := 40.0

  /** The commands the worker draws for a file. */
  function Prepared(lines: seq<string>, threshold: real, w: int, h: int): Fit.Fitted {
    Fit.FitOf(FlattenCommands(Parse(lines).commands, threshold), w, h, MARGIN)
  }

  lemma {:induction false} ParsedKinds(lines: seq<string>, line: int, record: int, pos: Point)
    ensures forall k :: 0 <= k < |ParseFrom(lines, line, record, pos).commands| ==>
              ParseFrom(lines, line, record, pos).commands[k].kind != NoType
  {
    hide DetectKind, ReadCoords;
    if lines != [] {
      var text := TrimRight(lines[0]);
      var r := ReadLine(text, pos);
      ParsedKinds(lines[1..], line + 1, record, pos);
      ParsedKinds(lines[1..], line + 1, record + 1, pos);
      if r.Read? {
        ParsedKinds(lines[1..], line + 1, record + 1, r.endPos);
      }
    }
  }

  /** What the file reader promises the sweep: record indices that start at 0 or later and
      strictly increase, and a type for every command, kept by flattening and fitting. */
  lemma PreparedIsRecorded(lines: seq<string>, threshold: real, w: int, h: int)
    ensures Sweep.Recorded(Prepared(lines, threshold, w, h).commands)
    ensures forall k :: 0 <= k < |Prepared(lines, threshold, w, h).commands| ==>
              Prepared(lines, threshold, w, h).commands[k].kind != NoType
  {
    hide Parse, Fit.Scale, Fit.Offset;
    var cmds := Parse(lines).commands;
    ParsedIsRecorded(lines);
    var out := Prepared(lines, threshold, w, h).commands;
    assert |out| == |cmds|;
    assert forall k :: 0 <= k < |cmds| ==> out[k].recordIndex == cmds[k].recordIndex;
    assert forall k :: 0 <= k < |cmds| ==> out[k].kind == FlattenKind(cmds[k].kind, cmds[k].arcCenter, threshold);
  }

  lemma ParsedIsRecorded(lines: seq<string>)
    ensures Sweep.Recorded(Parse(lines).commands)
    ensures forall k :: 0 <= k < |Parse(lines).commands| ==> Parse(lines).commands[k].kind != NoType
  {
    hide ParseFrom;
    CommandsNameTheirRecord(lines, 0, 0, ORIGIN);
    ParsedKinds(lines, 0, 0, ORIGIN);
  }

  /** Reading and preparing a file. */
  method Prepare(lines: seq<string>, threshold: real, w: int, h: int) returns (fitted: Fit.Fitted)
    ensures fitted == Prepared(lines, threshold, w, h)
  {
    var parsed := ParseFile(lines);
    var flattened := FlattenCommandsMM(parsed.commands, threshold);
    var commands, hOff, vOff := Fit.FitCommands(flattened, w, h, MARGIN);
    fitted := Fit.Fitted(commands, hOff, vOff);
  }

  /** The render job: everything at once, in normal colours. */
  method RenderJob(lines: seq<string>, threshold: real, w: int, h: int) returns (canvas: array<Sweep.Paint>)
    ensures fresh(canvas) && canvas[..] == Sweep.Direct(Prepared(lines, threshold, w, h).commands, -1)
  {
    var fitted := Prepare(lines, threshold, w, h);
    var total := |fitted.commands|;
    canvas := new Sweep.Paint[total](_ => Sweep.Blank);
    assert canvas[..] == Sweep.BlankCanvas(total);
    var _ := Sweep.RenderRange(canvas, fitted.commands, 0, total, ORIGIN, -1);
  }

  /** The test-run job, from the file to the final picture. */
  method TestRunJob(lines: seq<string>, threshold: real, w: int, h: int, interval: int, i: Sweep.Interrupts,
                    clock: nat -> int, started: int)
    returns (canvas: array<Sweep.Paint>, lastK: nat, stopped: bool, frames: seq<Sweep.Frame>, waited: int)
    ensures
      var cmds := Prepared(lines, threshold, w, h).commands;
      && fresh(canvas) && (if stopped then 0 < lastK <= |cmds| else lastK == Sweep.Least(i.downAt, |cmds|))
      && canvas[..] == (if stopped then Sweep.Progress(cmds, lastK - 1, true) else Sweep.Progress(cmds, lastK, false))
      && Sweep.FramesAreDirect(frames, cmds)
      && Sweep.NeverLags(frames, lastK, Sweep.StepChunk(|cmds|))
      && Sweep.Unforced(frames) <= 118
      && Sweep.Timely(frames, clock, started, lastK)
      && Sweep.Paced(lastK, waited, stopped, interval, i)
  {
    hide Prepared, Sweep.Progress, Sweep.FramesAreDirect, Sweep.NeverLags, Sweep.Unforced;
    hide Sweep.Recorded, Sweep.StepChunk, Sweep.ShownAt, Sweep.Timely, Sweep.Needed, Sweep.Paced;
    var fitted := Prepare(lines, threshold, w, h);
    PreparedIsRecorded(lines, threshold, w, h);
    var total := |fitted.commands|;
    canvas := new Sweep.Paint[total](_ => Sweep.Blank);
    assert canvas[..] == Sweep.BlankCanvas(total);
    lastK, stopped, frames, waited := Sweep.TestRun(canvas, fitted.commands, interval, i, clock, started);
    Sweep.UnforcedBound(total, lastK, Sweep.Unforced(frames));
  }
}
