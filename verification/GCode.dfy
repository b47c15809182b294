/** The G-code reader of the preview, and the command form of arc flattening. */
module GCode {
  import opened Text
  import opened Decimal
  import opened ArcFlatten

  datatype CommandType = NoType | G00 | G01 | G02 | G03

  datatype Point = Point(x: real, y: real)

  const ORIGIN := Point(0.0, 0.0)

  /** `endPos` is absolute, `arcCenter` an offset from the start of the command;
      `recordIndex` is -1 where it is not set. */
  datatype Command = Command(kind: CommandType, endPos: Point, arcCenter: Point,
                             lineNumber: int, recordIndex: int)
  {
    predicate IsArc() { kind == G02 || kind == G03 }
  }

  // ---------- one line ----------

  function KindOfNumber(n: string): CommandType {
    if n == "0" then G00
    else if n == "1" then G01
    else if n == "2" then G02
    else if n == "3" then G03
    else NoType
  }

  /** Index of the first G00 to G03 word, or -1. */
  function FirstMotion(ts: seq<string>): (m: int)
    ensures -1 <= m < |ts|
  {
    if ts == [] then -1
    else if KindOfNumber(GNumber(ts[0])) != NoType then 0
    else
      var m := FirstMotion(ts[1..]);
      if m >= 0 then m + 1 else -1
  }

  lemma {:induction false} FirstMotionIsFirst(ts: seq<string>)
    ensures FirstMotion(ts) >= 0 ==> KindOfNumber(GNumber(ts[FirstMotion(ts)])) != NoType
    ensures forall k :: 0 <= k < (if FirstMotion(ts) >= 0 then FirstMotion(ts) else |ts|) ==>
              KindOfNumber(GNumber(ts[k])) == NoType
  {
    if ts != [] {
      FirstMotionIsFirst(ts[1..]);
      assert forall k :: 1 <= k < |ts| ==> ts[k] == ts[1..][k - 1];
    }
  }

  /** The first G00 to G03 word decides. */
  function DetectKind(ts: seq<string>): CommandType {
    var m := FirstMotion(ts);
    if m >= 0 then KindOfNumber(GNumber(ts[m])) else NoType
  }

  datatype Coords = Coords(x: real, y: real, i: real, j: real)

  predicate IsXWord(t: string) { t != "" && (t[0] == 'X' || t[0] == 'x') }

  predicate IsYWord(t: string) { t != "" && (t[0] == 'Y' || t[0] == 'y') }

  predicate IsAxisWord(t: string) { IsXWord(t) || IsYWord(t) || IsOffsetWord(t) }

  function SetCoord(c: Coords, t: string, v: real): Coords {
    if IsXWord(t) then c.(x := v)
    else if IsYWord(t) then c.(y := v)
    else if IsIWord(t) then c.(i := v)
    else c.(j := v)
  }

  /** Text of the number that belongs to the first word, and the words after it; None
      if the letter stands last. */
  function TakeValue(ts: seq<string>): (r: Option<(string, seq<string>)>)
    requires ts != [] && ts[0] != ""
    ensures r.Some? ==> |r.value.1| < |ts|
  {
    if |ts[0]| > 1 then Some((ts[0][1..], ts[1..]))
    else if |ts| > 1 then Some((ts[1], ts[2..]))
    else None
  }

  /** The words left to right; None where the reader throws. */
  function ReadCoords(ts: seq<string>, c: Coords): Option<Coords>
    decreases |ts|
  {
    if ts == [] then Some(c)
    else if !IsAxisWord(ts[0]) then ReadCoords(ts[1..], c)
    else
      match TakeValue(ts)
      case None => None
      case Some((text, rest)) =>
        match Stod(CommaToPoint(text))
        case None => None
        case Some(v) => ReadCoords(rest, SetCoord(c, ts[0], v))
  }

  datatype Reading = Skipped | Bad | Read(kind: CommandType, endPos: Point, arcCenter: Point)

  predicate StartsComment(s: string) { s != "" && (s[0] == ';' || s[0] == '(') }

  function ReadLine(line: string, pos: Point): Reading {
    var ts := Tokens(line);
    if line == "" || StartsComment(line) || DetectKind(ts) == NoType then Skipped
    else
      match ReadCoords(ts, Coords(pos.x, pos.y, 0.0, 0.0))
      case None => Bad
      case Some(c) => Read(DetectKind(ts), Point(c.x, c.y), Point(c.i, c.j))
  }

  // ---------- the command form of flattening ----------

  function FlattenKind(kind: CommandType, arcCenter: Point, threshold: real): CommandType {
    if (kind == G02 || kind == G03) && SmallArc(arcCenter.x, arcCenter.y, threshold) then G01 else kind
  }

  function FlattenReading(r: Reading, threshold: real): Reading {
    if r.Read? then r.(kind := FlattenKind(r.kind, r.arcCenter, threshold)) else r
  }

  /** Two readings draw the same: both nothing, or the same segment, where the centre only
      matters for arcs. */
  predicate SameDrawing(a: Reading, b: Reading) {
    if a.Read? && b.Read? then
      a.kind == b.kind && a.endPos == b.endPos && (a.kind == G02 || a.kind == G03 ==> a.arcCenter == b.arcCenter)
    else !a.Read? && !b.Read?
  }

  // ---------- the two forms agree ----------

  lemma NumberIsNoAddress(t: string)
    requires IsWord(t) && Stod(CommaToPoint(t)).Some?
    ensures !IsAxisWord(t) && GNumber(t) == ""
  {
  }

  /** A detached letter of a readable line is followed by its number. */
  lemma DetachedIsNumbered(ts: seq<string>, c: Coords)
    requires AllWords(ts) && ts != [] && IsAxisWord(ts[0]) && |ts[0]| == 1 && ReadCoords(ts, c).Some?
    ensures |ts| > 1 && IsWord(ts[1]) && !IsAxisWord(ts[1]) && GNumber(ts[1]) == ""
    ensures Stod(CommaToPoint(ts[1])).Some?
    ensures ts[1..][1..] == ts[2..]
  {
  }

  /** The first word, a letter with or without its number, has one. */
  predicate FirstHasNumber(ts: seq<string>)
    requires ts != [] && ts[0] != ""
  {
    TakeValue(ts).Some? && Stod(CommaToPoint(TakeValue(ts).value.0)).Some?
  }

  /** Every X, Y, I and J word has a number. */
  predicate AllNumbered(ts: seq<string>) {
    ts == [] || ((IsAxisWord(ts[0]) ==> FirstHasNumber(ts)) && AllNumbered(ts[1..]))
  }

  /** The reader throws exactly where some address word has no number. */
  lemma {:induction false} ReadsWhenNumbered(ts: seq<string>, c: Coords)
    requires AllWords(ts)
    ensures ReadCoords(ts, c).Some? <==> AllNumbered(ts)
    decreases |ts|
  {
    if ts != [] {
      assert IsWord(ts[0]);
      if !IsAxisWord(ts[0]) {
        ReadsWhenNumbered(ts[1..], c);
      } else if FirstHasNumber(ts) {
        var (text, rest) := TakeValue(ts).value;
        ReadsWhenNumbered(rest, SetCoord(c, ts[0], Stod(CommaToPoint(text)).value));
        if |ts[0]| == 1 {
          assert IsWord(ts[1]);
          NumberIsNoAddress(ts[1]);
          assert ts[1..][1..] == rest;
        }
      }
    }
  }

  lemma AddressIsNoMotion(t: string)
    ensures IsAxisWord(t) ==> GNumber(t) == ""
    ensures IsArcWord(t) ==> KindOfNumber(GNumber(t)) == G02 || KindOfNumber(GNumber(t)) == G03
    ensures KindOfNumber(GNumber(t)) == G02 || KindOfNumber(GNumber(t)) == G03 ==> IsArcWord(t)
    ensures GNumber("G01") == "1"
  {
  }

  /** Value of the last X word, `d` if there is none. */
  function LastX(ts: seq<string>, d: real): real {
    if ts == [] then d
    else LastX(ts[1..], if IsXWord(ts[0]) then FirstValue(ts) else d)
  }

  function LastY(ts: seq<string>, d: real): real {
    if ts == [] then d
    else LastY(ts[1..], if IsYWord(ts[0]) then FirstValue(ts) else d)
  }

  /** On a line that reads without error the last word of each letter gives its coordinate;
      for I and J that is what the rewriter reads. */
  lemma {:induction false} SameOffsets(ts: seq<string>, c: Coords)
    requires AllWords(ts) && ReadCoords(ts, c).Some?
    ensures LastX(ts, c.x) == ReadCoords(ts, c).value.x
    ensures LastY(ts, c.y) == ReadCoords(ts, c).value.y
    ensures LastI(ts, c.i) == ReadCoords(ts, c).value.i
    ensures LastJ(ts, c.j) == ReadCoords(ts, c).value.j
    decreases |ts|
  {
    if ts != [] {
      assert IsWord(ts[0]);
      if !IsAxisWord(ts[0]) {
        SameOffsets(ts[1..], c);
      } else {
        var (text, rest) := TakeValue(ts).value;
        SameOffsets(rest, SetCoord(c, ts[0], Stod(CommaToPoint(text)).value));
        if |ts[0]| == 1 {
          assert IsWord(ts[1]);
          NumberIsNoAddress(ts[1]);
          assert ts[1..][1..] == ts[2..];
        }
      }
    }
  }

  /** A valid index of the word to replace: none left, or an arc word. */
  predicate Target(ts: seq<string>, g: int) {
    g < |ts| && (g >= 0 ==> IsArcWord(ts[g]))
  }

  lemma TargetStep(ts: seq<string>, g: int)
    requires AllWords(ts) && ts != [] && Target(ts, g)
    ensures g != 0 ==> Target(ts[1..], g - 1)
    ensures Target(ts[1..], -1)
    ensures IsAxisWord(ts[0]) ==> g != 0
    ensures IsAxisWord(ts[0]) && |ts[0]| == 1 && |ts| > 1 && Stod(CommaToPoint(ts[1])).Some? ==>
              g != 1 && Target(ts[2..], g - 2)
  {
  }

  /** The rewritten words read without error to the same X and Y; I and J stay unset. */
  lemma {:induction false} RewriteReads(ts: seq<string>, g: int, c: Coords, d: Coords)
    requires AllWords(ts) && Target(ts, g) && ReadCoords(ts, c).Some?
    requires c.x == d.x && c.y == d.y
    ensures ReadCoords(Rewrite(ts, g), d)
            == Some(Coords(ReadCoords(ts, c).value.x, ReadCoords(ts, c).value.y, d.i, d.j))
    decreases |ts|
  {
    hide Stod, CommaToPoint, GNumber;
    if ts != [] {
      assert IsWord(ts[0]);
      TargetStep(ts, g);
      if g == 0 {
        AddressIsNoMotion(ts[0]);
        RewriteReads(ts[1..], -1, c, d);
        assert Rewrite(ts, g)[1..] == Rewrite(ts[1..], -1);
      } else if !IsAxisWord(ts[0]) {
        RewriteReads(ts[1..], g - 1, c, d);
        assert Rewrite(ts, g)[1..] == Rewrite(ts[1..], g - 1);
      } else {
        AxisWordReads(ts, g, c, d);
      }
    }
  }

  lemma ReadAttached(t: string, rest: seq<string>, c: Coords)
    requires IsAxisWord(t) && |t| > 1 && Stod(CommaToPoint(t[1..])).Some?
    ensures ReadCoords([t] + rest, c) == ReadCoords(rest, SetCoord(c, t, Stod(CommaToPoint(t[1..])).value))
  {
  }

  lemma ReadDetached(t: string, number: string, rest: seq<string>, c: Coords)
    requires IsAxisWord(t) && |t| == 1 && Stod(CommaToPoint(number)).Some?
    ensures ReadCoords([t, number] + rest, c) == ReadCoords(rest, SetCoord(c, t, Stod(CommaToPoint(number)).value))
  {
  }

  /** What a readable line gives for an address word at its start. */
  lemma ReadAxisWord(ts: seq<string>, c: Coords)
    requires ts != [] && IsAxisWord(ts[0]) && ReadCoords(ts, c).Some?
    ensures
      TakeValue(ts).Some? &&
      var (text, rest) := TakeValue(ts).value;
      Stod(CommaToPoint(text)).Some? &&
      ReadCoords(ts, c) == ReadCoords(rest, SetCoord(c, ts[0], Stod(CommaToPoint(text)).value))
  {
  }

  lemma {:induction false} AxisWordReads(ts: seq<string>, g: int, c: Coords, d: Coords)
    requires ts != [] && IsAxisWord(ts[0]) && g != 0
    requires AllWords(ts) && Target(ts, g) && ReadCoords(ts, c).Some?
    requires c.x == d.x && c.y == d.y
    ensures ReadCoords(Rewrite(ts, g), d)
            == Some(Coords(ReadCoords(ts, c).value.x, ReadCoords(ts, c).value.y, d.i, d.j))
    decreases |ts|, 0
  {
    hide Stod, CommaToPoint, GNumber, ReadCoords, Rewrite;
    TargetStep(ts, g);
    ReadAxisWord(ts, c);
    var (text, rest) := TakeValue(ts).value;
    var v := Stod(CommaToPoint(text)).value;
    var kept := if IsOffsetWord(ts[0]) then d else SetCoord(d, ts[0], v);
    if |ts[0]| > 1 {
      RewriteReads(rest, g - 1, SetCoord(c, ts[0], v), kept);
      RewriteStep(ts, g);
      if IsOffsetWord(ts[0]) {
        assert Rewrite(ts, g) == Rewrite(rest, g - 1);
      } else {
        ReadAttached(ts[0], Rewrite(rest, g - 1), d);
      }
    } else {
      DetachedIsNumbered(ts, c);
      RewriteReads(rest, g - 2, SetCoord(c, ts[0], v), kept);
      if IsOffsetWord(ts[0]) {
        RewriteSkip(ts, g);
      } else {
        RewriteStep(ts, g);
        RewriteStep(ts[1..], g - 1);
        assert Rewrite(ts, g) == [ts[0], ts[1]] + Rewrite(rest, g - 2);
        ReadDetached(ts[0], ts[1], Rewrite(rest, g - 2), d);
      }
    }
  }

  lemma DetectStep(ts: seq<string>)
    requires ts != []
    ensures KindOfNumber(GNumber(ts[0])) != NoType ==>
              FirstMotion(ts) == 0 && DetectKind(ts) == KindOfNumber(GNumber(ts[0]))
    ensures KindOfNumber(GNumber(ts[0])) == NoType ==>
              DetectKind(ts) == DetectKind(ts[1..]) &&
              FirstMotion(ts) == (if FirstMotion(ts[1..]) >= 0 then FirstMotion(ts[1..]) + 1 else -1)
  {
  }

  /** What `Rewrite` does to the deciding word. */
  predicate Detects(ts: seq<string>, g: int) {
    DetectKind(Rewrite(ts, g)) == if g >= 0 && FirstMotion(ts) == g then G01 else DetectKind(ts)
  }

  lemma DetectsNothing(g: int)
    ensures Detects([], g)
  {
  }

  lemma DetectsKept(ts: seq<string>, g: int)
    requires ts != [] && g != 0 && !IsOffsetWord(ts[0]) && Detects(ts[1..], g - 1)
    ensures Detects(ts, g)
  {
  }

  lemma DetectsReplaced(ts: seq<string>)
    requires ts != [] && IsArcWord(ts[0])
    ensures Detects(ts, 0)
  {
  }

  /** Dropping words that are no motion words changes nothing. */
  lemma DetectsDropped(ts: seq<string>, g: int, n: nat)
    requires (n == 1 || n == 2) && n <= |ts| && g != 0 && (n == 2 ==> g != 1)
    requires forall k :: 0 <= k < n ==> GNumber(ts[k]) == ""
    requires Rewrite(ts, g) == Rewrite(ts[n..], g - n) && Detects(ts[n..], g - n)
    ensures Detects(ts, g)
  {
  }

  /** The first motion word of the rewritten words: G01 if it was the one replaced. */
  lemma {:induction false} RewriteDetects(ts: seq<string>, g: int)
    requires AllWords(ts) && Target(ts, g) && AllNumbered(ts)
    ensures Detects(ts, g)
    decreases |ts|
  {
    hide Detects, GNumber, KindOfNumber, FirstMotion, Stod, CommaToPoint;
    if ts == [] {
      DetectsNothing(g);
    } else {
      assert IsWord(ts[0]);
      TargetStep(ts, g);
      AddressIsNoMotion(ts[0]);
      if g == 0 {
        DetectsReplaced(ts);
      } else if IsOffsetWord(ts[0]) && |ts[0]| == 1 {
        assert IsWord(ts[1]);
        NumberIsNoAddress(ts[1]);
        assert ts[1..][1..] == ts[2..];
        RewriteDetects(ts[2..], g - 2);
        DetectsDropped(ts, g, 2);
      } else {
        RewriteDetects(ts[1..], g - 1);
        if IsOffsetWord(ts[0]) {
          DetectsDropped(ts, g, 1);
        } else {
          DetectsKept(ts, g);
        }
      }
    }
  }

  /** Whether the first word that survives rewriting opens a comment. */
  predicate LeadsWithComment(ts: seq<string>) { Kept(ts) != [] && StartsComment(Kept(ts)[0]) }

  /** A line that opens a comment keeps doing so. */
  lemma CommentLeads(line: string)
    requires StartsComment(line)
    ensures LeadsWithComment(Tokens(line))
  {
    CommentIsFirstWord(line);
    var ts := Tokens(line);
    hide Tokens, Survivors;
    SurvivorsStep(ts, 0, LastArc(ts));
    LastArcIsLast(ts);
  }

  lemma CommentIsFirstWord(line: string)
    requires StartsComment(line)
    ensures Tokens(line) != [] && StartsComment(Tokens(line)[0])
  {
  }

  /** How the line sent for a line that fires reads: its surviving words decide. */
  lemma ReadSent(line: string, threshold: real, pos: Point)
    requires Fires(Tokens(line), threshold)
    ensures
      var kept := Kept(Tokens(line));
      var coords := ReadCoords(kept, Coords(pos.x, pos.y, 0.0, 0.0));
      ReadLine(FlattenLine(line, threshold), pos)
      == if LeadsWithComment(Tokens(line)) || DetectKind(kept) == NoType then Skipped
         else if coords.None? then Bad
         else Read(DetectKind(kept), Point(coords.value.x, coords.value.y), Point(coords.value.i, coords.value.j))
  {
    hide Tokens, LastArc, ReadCoords, Join, Rewrite, GNumber, Survivors;
    var ts := Tokens(line);
    var kept := Kept(ts);
    TokensAreWords(line);
    RewrittenIsKept(ts);
    RewrittenIsStable(ts, threshold);
    RewriteEmitsNoOffsets(ts, LastArc(ts));
    if kept != [] {
      assert IsWord(kept[0]);
      JoinNonempty(kept);
    }
  }

  /** For a line the reader accepts: a comment, or a command of known type and the same end. */
  lemma ReadRewritten(line: string, threshold: real, pos: Point)
    requires !ReadLine(line, pos).Bad? && Fires(Tokens(line), threshold)
    ensures !LeadsWithComment(Tokens(line)) ==> ReadLine(line, pos).Read?
    ensures ReadLine(FlattenLine(line, threshold), pos)
            == if LeadsWithComment(Tokens(line)) then Skipped
               else Read(if FirstMotion(Tokens(line)) == LastArc(Tokens(line)) then G01 else DetectKind(Tokens(line)),
                         ReadLine(line, pos).endPos, ORIGIN)
  {
    hide Tokens, LastArc, FirstMotion, ReadCoords, Rewrite, GNumber, LeadsWithComment, Kept, FlattenLine;
    var ts := Tokens(line);
    var g := LastArc(ts);
    var c := Coords(pos.x, pos.y, 0.0, 0.0);
    TokensAreWords(line);
    LastArcIsLast(ts);
    FirstMotionIsFirst(ts);
    AddressIsNoMotion(ts[g]);
    ReadSent(line, threshold, pos);
    RewrittenIsKept(ts);
    BlankHasNoTokens(line);
    if StartsComment(line) {
      CommentLeads(line);
    } else {
      assert ReadLine(line, pos).Read?;
      ReadsWhenNumbered(ts, c);
      RewriteReads(ts, g, c, c);
      RewriteDetects(ts, g);
    }
  }

  /** Whether the word that decides the type makes the line an arc. */
  predicate IsArcLine(ts: seq<string>) { DetectKind(ts) == G02 || DetectKind(ts) == G03 }

  /** For a line the preview reads as a command. The transfer flattens with threshold `a`, the
      preview with `b`. A line that is rewritten must not turn into a comment, and if it is an
      arc, its deciding word must be the last arc word and the preview must flatten it too; a
      line that is not rewritten must be no arc that the preview flattens. */
  predicate CommandGuard(line: string, a: real, b: real) {
    var ts := Tokens(line);
    var small := SmallArc(LastI(ts, 0.0), LastJ(ts, 0.0), b);
    if Fires(ts, a) then !LeadsWithComment(ts) && (IsArcLine(ts) ==> FirstMotion(ts) == LastArc(ts) && small)
    else !(IsArcLine(ts) && small)
  }

  /** For a line the preview rejects: it does not fire, or what is sent is a comment, holds
      no motion word, or holds an X or Y word without a number. */
  predicate RejectedGuard(line: string, threshold: real) {
    var ts := Tokens(line);
    !Fires(ts, threshold) || LeadsWithComment(ts) || DetectKind(Kept(ts)) == NoType || !AllNumbered(Kept(ts))
  }

  predicate FormsAgreeOn(line: string, a: real, b: real) {
    match ReadLine(line, ORIGIN)
    case Skipped => true
    case Bad => RejectedGuard(line, a)
    case Read(_, _, _) => CommandGuard(line, a, b)
  }

  lemma ReadingIgnoresPosition(line: string, p: Point, q: Point)
    ensures ReadLine(line, p).Read? <==> ReadLine(line, q).Read?
    ensures ReadLine(line, p).Bad? <==> ReadLine(line, q).Bad?
  {
    TokensAreWords(line);
    ReadsWhenNumbered(Tokens(line), Coords(p.x, p.y, 0.0, 0.0));
    ReadsWhenNumbered(Tokens(line), Coords(q.x, q.y, 0.0, 0.0));
  }

  lemma CommandFormsAgree(line: string, a: real, b: real, pos: Point)
    requires ReadLine(line, pos).Read?
    ensures SameDrawing(ReadLine(FlattenLine(line, a), pos), FlattenReading(ReadLine(line, pos), b))
            <==> CommandGuard(line, a, b)
    ensures ReadLine(FlattenLine(line, a), pos).Read? ==>
              ReadLine(FlattenLine(line, a), pos).endPos == ReadLine(line, pos).endPos
  {
    var ts := Tokens(line);
    var c := Coords(pos.x, pos.y, 0.0, 0.0);
    hide Tokens, LastArc, LastI, LastJ, FirstMotion, ReadCoords, Join, Rewrite, GNumber, LeadsWithComment;
    TokensAreWords(line);
    SameOffsets(ts, c);
    FirstMotionIsFirst(ts);
    LastArcIsLast(ts);
    AddressIsNoMotion(ts[FirstMotion(ts)]);
    if Fires(ts, a) {
      ReadRewritten(line, a, pos);
    }
  }

  /** A skipped line is sent as a skipped line. */
  lemma SkippedStaysSkipped(line: string, threshold: real, pos: Point)
    requires ReadLine(line, pos).Skipped?
    ensures ReadLine(FlattenLine(line, threshold), pos).Skipped?
  {
    hide ReadLine, Tokens, LeadsWithComment, Join, Rewrite, LastArc;
    if Fires(Tokens(line), threshold) {
      ReadRewritten(line, threshold, pos);
    }
  }

  /** A rejected line, which the preview does not draw: the sent line draws nothing either,
      exactly under the guard. */
  lemma RejectedFormsAgree(line: string, threshold: real, pos: Point)
    requires ReadLine(line, pos).Bad?
    ensures !ReadLine(FlattenLine(line, threshold), pos).Read? <==> RejectedGuard(line, threshold)
  {
    hide Tokens, LastArc, LastI, LastJ, ReadCoords, Join, Rewrite, DetectKind, LeadsWithComment, Survivors;
    var ts := Tokens(line);
    if Fires(ts, threshold) {
      ReadSent(line, threshold, pos);
      TokensAreWords(line);
      RewriteEmitsNoOffsets(ts, LastArc(ts));
      RewrittenIsKept(ts);
      ReadsWhenNumbered(Kept(ts), Coords(pos.x, pos.y, 0.0, 0.0));
    }
  }

  /** For every line, wherever the tool stands, and any two thresholds: reading the line sent
      to the PLC draws what the preview draws for it, a flattened command or nothing, exactly
      when the guard holds. */
  lemma LineAndCommandFormsAgree(line: string, a: real, b: real, pos: Point)
    ensures SameDrawing(ReadLine(FlattenLine(line, a), pos), FlattenReading(ReadLine(line, pos), b))
            <==> FormsAgreeOn(line, a, b)
  {
    hide ReadLine, FlattenLine, CommandGuard, RejectedGuard;
    ReadingIgnoresPosition(line, pos, ORIGIN);
    match ReadLine(line, pos)
    case Skipped => SkippedStaysSkipped(line, a, pos);
    case Bad => RejectedFormsAgree(line, a, pos);
    case Read(_, _, _) => CommandFormsAgree(line, a, b, pos);
  }

  /** With one threshold for both, a line that is not rewritten needs nothing. */
  lemma OneThreshold(line: string, threshold: real)
    requires ReadLine(line, ORIGIN).Read?
    ensures
      var ts := Tokens(line);
      FormsAgreeOn(line, threshold, threshold)
      <==> (Fires(ts, threshold) ==> !LeadsWithComment(ts) && (IsArcLine(ts) ==> FirstMotion(ts) == LastArc(ts)))
  {
    hide Tokens, LastArc, LastI, LastJ, FirstMotion, ReadCoords, GNumber, LeadsWithComment, SmallArc;
    var ts := Tokens(line);
    FirstMotionIsFirst(ts);
    LastArcIsLast(ts);
    AddressIsNoMotion(ts[FirstMotion(ts)]);
  }
}
