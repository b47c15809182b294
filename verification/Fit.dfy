/** Fitting a tool path into the preview canvas. */
module Fit {
  import opened Reals
  import opened ArcFlatten
  import opened GCode
  import opened GCodeFile

  /** `llround`: to the nearest integer, halves away from zero (section 7.12.9.7 of C11). */
  function RoundHalfAway(r: real): int {
    if r >= 0.0 then (r + 0.5).Floor else -(-r + 0.5).Floor
  }

  lemma RoundIsNear(r: real)
    ensures -0.5 <= RoundHalfAway(r) as real - r <= 0.5
  {
  }

  lemma RoundHalvesAway(n: nat)
    ensures RoundHalfAway(n as real) == n && RoundHalfAway(-(n as real)) == 0 - n
    ensures RoundHalfAway(n as real + 0.5) == n + 1 && RoundHalfAway(-(n as real + 0.5)) == 0 - (n + 1)
  {
  }

  // ---------- bounding box, scale and offsets ----------

  /** Least x of the endpoints and of the renderer's start 0. */
  function MinX(cmds: seq<Command>): real {
    if cmds == [] then 0.0 else Min(MinX(cmds[..|cmds| - 1]), cmds[|cmds| - 1].endPos.x)
  }

  function MaxX(cmds: seq<Command>): real {
    if cmds == [] then 0.0 else Max(MaxX(cmds[..|cmds| - 1]), cmds[|cmds| - 1].endPos.x)
  }

  function MinY(cmds: seq<Command>): real {
    if cmds == [] then 0.0 else Min(MinY(cmds[..|cmds| - 1]), cmds[|cmds| - 1].endPos.y)
  }

  function MaxY(cmds: seq<Command>): real {
    if cmds == [] then 0.0 else Max(MaxY(cmds[..|cmds| - 1]), cmds[|cmds| - 1].endPos.y)
  }

  function SpanX(cmds: seq<Command>): (r: real)
    ensures r >= 1.0
  {
    Max(1.0, MaxX(cmds) - MinX(cmds))
  }

  function SpanY(cmds: seq<Command>): (r: real)
    ensures r >= 1.0
  {
    Max(1.0, MaxY(cmds) - MinY(cmds))
  }

  /** Quotient of a canvas side without its margins and a span. */
  function Ratio(side: int, margin: real, span: real): real
    requires span > 0.0
  {
    (side as real - 2.0 * margin) / span
  }

  function Scale(cmds: seq<Command>, w: int, h: int, margin: real): real {
    var s := Min(Ratio(w, margin, SpanX(cmds)), Ratio(h, margin, SpanY(cmds)));
    if s <= 0.0 then 1.0 else s
  }

  function Offset(side: int, span: real, low: real, scale: real): int {
    RoundHalfAway((side as real - Times(span, scale)) / 2.0 - Times(low, scale))
  }

  function ScalePoint(p: Point, s: real): Point { Point(Times(p.x, s), Times(p.y, s)) }

  function ScaleCommand(c: Command, s: real): Command {
    c.(endPos := ScalePoint(c.endPos, s), arcCenter := ScalePoint(c.arcCenter, s))
  }

  function ScaleCommands(cmds: seq<Command>, s: real): (out: seq<Command>)
    ensures |out| == |cmds|
  {
    seq(|cmds|, k requires 0 <= k < |cmds| => ScaleCommand(cmds[k], s))
  }

  datatype Fitted = Fitted(commands: seq<Command>, hOff: int, vOff: int)

  function FitOf(cmds: seq<Command>, w: int, h: int, margin: real): Fitted {
    if cmds == [] then Fitted([], 0, 0)
    else
      var s := Scale(cmds, w, h, margin);
      Fitted(ScaleCommands(cmds, s), Offset(w, SpanX(cmds), MinX(cmds), s), Offset(h, SpanY(cmds), MinY(cmds), s))
  }

  method FitCommands(cmds: seq<Command>, w: int, h: int, margin: real) returns (out: seq<Command>, hOff: int, vOff: int)
    ensures Fitted(out, hOff, vOff) == FitOf(cmds, w, h, margin)
  {
    hOff, vOff := 0, 0;
    if cmds == [] {
      return [], 0, 0;
    }
    var minx, maxx, miny, maxy := 0.0, 0.0, 0.0, 0.0;
    for k := 0 to |cmds|
      invariant minx == MinX(cmds[..k]) && maxx == MaxX(cmds[..k])
      invariant miny == MinY(cmds[..k]) && maxy == MaxY(cmds[..k])
    {
      assert cmds[..k + 1][..k] == cmds[..k];
      minx := Min(minx, cmds[k].endPos.x);
      maxx := Max(maxx, cmds[k].endPos.x);
      miny := Min(miny, cmds[k].endPos.y);
      maxy := Max(maxy, cmds[k].endPos.y);
    }
    assert cmds[..|cmds|] == cmds;
    var spanx := Max(1.0, maxx - minx);
    var spany := Max(1.0, maxy - miny);
    var scale := Min((w as real - 2.0 * margin) / spanx, (h as real - 2.0 * margin) / spany);
    if scale <= 0.0 {
      scale := 1.0;
    }
    hOff := Offset(w, spanx, minx, scale);
    vOff := Offset(h, spany, miny, scale);
    out := cmds;
    for k := 0 to |out|
      invariant |out| == |cmds|
      invariant forall i :: 0 <= i < k ==> out[i] == ScaleCommand(cmds[i], scale)
      invariant forall i :: k <= i < |cmds| ==> out[i] == cmds[i]
    {
      out := out[k := ScaleCommand(out[k], scale)];
    }
    assert out == ScaleCommands(cmds, scale);
  }

  // ---------- the box is the box ----------

  /** Each side of the box is met by the start or by an endpoint. */
  ghost predicate IsTight(cmds: seq<Command>) {
    && (MinX(cmds) == 0.0 || exists k :: 0 <= k < |cmds| && cmds[k].endPos.x == MinX(cmds))
    && (MaxX(cmds) == 0.0 || exists k :: 0 <= k < |cmds| && cmds[k].endPos.x == MaxX(cmds))
    && (MinY(cmds) == 0.0 || exists k :: 0 <= k < |cmds| && cmds[k].endPos.y == MinY(cmds))
    && (MaxY(cmds) == 0.0 || exists k :: 0 <= k < |cmds| && cmds[k].endPos.y == MaxY(cmds))
  }

  lemma {:induction false} BoxIsTight(cmds: seq<Command>)
    ensures IsTight(cmds)
  {
    if cmds != [] {
      var n := |cmds| - 1;
      BoxIsTight(cmds[..n]);
      assert forall k :: 0 <= k < n ==> cmds[..n][k] == cmds[k];
      assert cmds[n].endPos.x == cmds[n].endPos.x;
    }
  }

  predicate InBox(p: Point, cmds: seq<Command>) {
    MinX(cmds) <= p.x <= MaxX(cmds) && MinY(cmds) <= p.y <= MaxY(cmds)
  }

  lemma {:induction false} BoxHoldsPath(cmds: seq<Command>)
    ensures InBox(ORIGIN, cmds)
    ensures forall k :: 0 <= k < |cmds| ==> InBox(cmds[k].endPos, cmds)
  {
    if cmds != [] {
      BoxHoldsPath(cmds[..|cmds| - 1]);
      forall k | 0 <= k < |cmds|
        ensures InBox(cmds[k].endPos, cmds)
      {
        if k < |cmds| - 1 {
          assert cmds[k] == cmds[..|cmds| - 1][k];
        }
      }
    }
  }

  lemma ScaleIsPositive(cmds: seq<Command>, w: int, h: int, margin: real)
    ensures Scale(cmds, w, h, margin) > 0.0
  {
  }

  /** With a positive margin box both spans, scaled, fit inside it, and no larger scale
      keeps both inside. */
  lemma {:induction false} ScaleIsLargest(cmds: seq<Command>, w: int, h: int, margin: real)
    requires 2.0 * margin < w as real && 2.0 * margin < h as real
    ensures
      var s := Scale(cmds, w, h, margin);
      && Times(SpanX(cmds), s) <= w as real - 2.0 * margin
      && Times(SpanY(cmds), s) <= h as real - 2.0 * margin
      && forall t :: t > s ==>
           Times(SpanX(cmds), t) > w as real - 2.0 * margin || Times(SpanY(cmds), t) > h as real - 2.0 * margin
  {
    hide MinX, MaxX, MinY, MaxY, Times, SpanX, SpanY, Ratio;
    var roomX, roomY := w as real - 2.0 * margin, h as real - 2.0 * margin;
    var px, py := SpanX(cmds), SpanY(cmds);
    var s := Scale(cmds, w, h, margin);
    RoomAtScale(w, margin, px, s);
    RoomAtScale(h, margin, py, s);
    forall t | t > s
      ensures Times(px, t) > roomX || Times(py, t) > roomY
    {
      RoomAtScale(w, margin, px, t);
      RoomAtScale(h, margin, py, t);
    }
  }

  /** A span, scaled, outgrows its side exactly beyond the quotient. */
  lemma RoomAtScale(side: int, margin: real, span: real, t: real)
    requires span > 0.0
    ensures Times(span, t) > side as real - 2.0 * margin <==> t > Ratio(side, margin, span)
    ensures 2.0 * margin < side as real ==> Ratio(side, margin, span) > 0.0
  {
    var q := Ratio(side, margin, span);
    assert Times(span, q) == side as real - 2.0 * margin;
    TimesSign(span, q);
    TimesSign(span, t - q);
    assert Times(span, t - q) == Times(span, t) - Times(span, q);
  }

  // ---------- the same in terms of the points ----------

  /** The start or an endpoint. */
  ghost predicate OnPath(p: Point, cmds: seq<Command>) {
    p == ORIGIN || exists k :: 0 <= k < |cmds| && cmds[k].endPos == p
  }

  /** At scale `t` a unit square fits the margin box, and so does the distance between any two
      points of the path in either direction. */
  ghost predicate FitsAt(cmds: seq<Command>, w: int, h: int, margin: real, t: real) {
    && t <= w as real - 2.0 * margin && t <= h as real - 2.0 * margin
    && forall p: Point, q: Point :: OnPath(p, cmds) && OnPath(q, cmds) ==>
         Times(p.x - q.x, t) <= w as real - 2.0 * margin && Times(p.y - q.y, t) <= h as real - 2.0 * margin
  }

  /** Points of the path that span it. */
  lemma SpanningX(cmds: seq<Command>) returns (p: Point, q: Point)
    ensures OnPath(p, cmds) && OnPath(q, cmds) && p.x == MaxX(cmds) && q.x == MinX(cmds)
  {
    BoxIsTight(cmds);
    hide MinX, MaxX, MinY, MaxY;
    p, q := ORIGIN, ORIGIN;
    if MaxX(cmds) != 0.0 {
      var k :| 0 <= k < |cmds| && cmds[k].endPos.x == MaxX(cmds);
      p := cmds[k].endPos;
    }
    if MinX(cmds) != 0.0 {
      var k :| 0 <= k < |cmds| && cmds[k].endPos.x == MinX(cmds);
      q := cmds[k].endPos;
    }
  }

  lemma SpanningY(cmds: seq<Command>) returns (p: Point, q: Point)
    ensures OnPath(p, cmds) && OnPath(q, cmds) && p.y == MaxY(cmds) && q.y == MinY(cmds)
  {
    BoxIsTight(cmds);
    hide MinX, MaxX, MinY, MaxY;
    p, q := ORIGIN, ORIGIN;
    if MaxY(cmds) != 0.0 {
      var k :| 0 <= k < |cmds| && cmds[k].endPos.y == MaxY(cmds);
      p := cmds[k].endPos;
    }
    if MinY(cmds) != 0.0 {
      var k :| 0 <= k < |cmds| && cmds[k].endPos.y == MinY(cmds);
      q := cmds[k].endPos;
    }
  }

  lemma PathInBox(p: Point, cmds: seq<Command>)
    requires OnPath(p, cmds)
    ensures InBox(p, cmds)
  {
    BoxHoldsPath(cmds);
    hide InBox;
  }

  lemma SpansFit(cmds: seq<Command>, w: int, h: int, margin: real, t: real)
    requires t > 0.0
    ensures FitsAt(cmds, w, h, margin, t)
            <==> Times(SpanX(cmds), t) <= w as real - 2.0 * margin && Times(SpanY(cmds), t) <= h as real - 2.0 * margin
  {
    hide MinX, MaxX, MinY, MaxY, Times, OnPath;
    var roomX, roomY := w as real - 2.0 * margin, h as real - 2.0 * margin;
    TimesOne(t);
    TimesOrder(1.0, SpanX(cmds), t);
    TimesOrder(1.0, SpanY(cmds), t);
    if Times(SpanX(cmds), t) <= roomX && Times(SpanY(cmds), t) <= roomY {
      forall p: Point, q: Point | OnPath(p, cmds) && OnPath(q, cmds)
        ensures Times(p.x - q.x, t) <= roomX && Times(p.y - q.y, t) <= roomY
      {
        PathInBox(p, cmds);
        PathInBox(q, cmds);
        TimesOrder(p.x - q.x, SpanX(cmds), t);
        TimesOrder(p.y - q.y, SpanY(cmds), t);
      }
    }
    if FitsAt(cmds, w, h, margin, t) {
      var a, b := SpanningX(cmds);
      var c, d := SpanningY(cmds);
      assert Times(a.x - b.x, t) <= roomX && Times(c.y - d.y, t) <= roomY;
    }
  }

  lemma TimesOne(t: real)
    ensures Times(1.0, t) == t
  {
  }

  /** The chosen scale is exactly the largest at which the path fits. */
  lemma FitsUpToScale(cmds: seq<Command>, w: int, h: int, margin: real, t: real)
    requires 2.0 * margin < w as real && 2.0 * margin < h as real && t > 0.0
    ensures FitsAt(cmds, w, h, margin, t) <==> t <= Scale(cmds, w, h, margin)
  {
    hide MinX, MaxX, MinY, MaxY, Times, FitsAt, Scale, SpanX, SpanY;
    SpansFit(cmds, w, h, margin, t);
    var s := Scale(cmds, w, h, margin);
    ScaleIsLargest(cmds, w, h, margin);
    ScaleIsPositive(cmds, w, h, margin);
    if t <= s {
      TimesGrows(SpanX(cmds), t, s);
      TimesGrows(SpanY(cmds), t, s);
    }
  }

  lemma TimesGrows(a: real, t: real, s: real)
    requires a >= 1.0 && t <= s
    ensures Times(a, t) <= Times(a, s)
  {
    assert a * (s - t) >= 0.0;
    assert a * (s - t) == a * s - a * t;
  }

  // ---------- everything lands inside the margins ----------

  predicate Within(v: real, side: int, margin: real) {
    margin - 0.5 <= v <= side as real - margin + 0.5
  }

  /** One coordinate: from the path to the canvas. */
  lemma CoordinateBound(c: real, low: real, high: real, span: real, s: real, side: int, margin: real)
    requires low <= c <= high && high - low <= span && s > 0.0
    requires Times(span, s) <= side as real - 2.0 * margin
    ensures Within(Times(c, s) + Offset(side, span, low, s) as real, side, margin)
  {
    hide Times;
    RoundIsNear((side as real - Times(span, s)) / 2.0 - Times(low, s));
    TimesOrder(low, c, s);
    TimesDifference(c, low, s);
    TimesOrder(c - low, span, s);
  }

  lemma TimesDifference(a: real, b: real, s: real)
    ensures Times(a - b, s) == Times(a, s) - Times(b, s)
  {
  }

  /** A point of the path after scaling, with the offsets the renderer adds. */
  function OnCanvas(p: Point, f: Fitted): Point {
    Point(p.x + f.hOff as real, p.y + f.vOff as real)
  }

  predicate InsideMargins(p: Point, w: int, h: int, margin: real) {
    Within(p.x, w, margin) && Within(p.y, h, margin)
  }

  /** The start and every endpoint lie inside the margins, up to half a pixel. */
  predicate PathInside(cmds: seq<Command>, w: int, h: int, margin: real) {
    var f := FitOf(cmds, w, h, margin);
    && InsideMargins(OnCanvas(ORIGIN, f), w, h, margin)
    && forall k :: 0 <= k < |f.commands| ==> InsideMargins(OnCanvas(f.commands[k].endPos, f), w, h, margin)
  }

  lemma PointInside(p: Point, cmds: seq<Command>, w: int, h: int, margin: real)
    requires cmds != [] && InBox(p, cmds)
    requires 2.0 * margin < w as real && 2.0 * margin < h as real
    ensures InsideMargins(OnCanvas(ScalePoint(p, Scale(cmds, w, h, margin)), FitOf(cmds, w, h, margin)), w, h, margin)
  {
    hide MinX, MaxX, MinY, MaxY, Times, Scale, Offset, ScaleCommands;
    var s := Scale(cmds, w, h, margin);
    ScaleIsPositive(cmds, w, h, margin);
    ScaleIsLargest(cmds, w, h, margin);
    CoordinateBound(p.x, MinX(cmds), MaxX(cmds), SpanX(cmds), s, w, margin);
    CoordinateBound(p.y, MinY(cmds), MaxY(cmds), SpanY(cmds), s, h, margin);
  }

  lemma FittedPathIsInside(cmds: seq<Command>, w: int, h: int, margin: real)
    requires cmds != []
    requires 2.0 * margin < w as real && 2.0 * margin < h as real
    ensures PathInside(cmds, w, h, margin)
  {
    hide Scale, Offset, InsideMargins, InBox;
    var f := FitOf(cmds, w, h, margin);
    var s := Scale(cmds, w, h, margin);
    BoxHoldsPath(cmds);
    PointInside(ORIGIN, cmds, w, h, margin);
    assert ScalePoint(ORIGIN, s) == ORIGIN;
    forall k | 0 <= k < |f.commands|
      ensures InsideMargins(OnCanvas(f.commands[k].endPos, f), w, h, margin)
    {
      PointInside(cmds[k].endPos, cmds, w, h, margin);
    }
  }

  /** A path that leaves a canvas whose margins use it up. */
  function DiagonalPath(): seq<Command> {
    [Command(G01, Point(2.0, 2.0), ORIGIN, 1, 0)]
  }

  /** Every nonempty path lands inside the margins exactly when the margins leave room in
      both directions. */
  lemma FitBoundIsExact(w: int, h: int, margin: real)
    ensures (forall cmds: seq<Command> :: cmds != [] ==> PathInside(cmds, w, h, margin))
            <==> 2.0 * margin < w as real && 2.0 * margin < h as real
  {
    if 2.0 * margin < w as real && 2.0 * margin < h as real {
      forall cmds: seq<Command> | cmds != []
        ensures PathInside(cmds, w, h, margin)
      {
        FittedPathIsInside(cmds, w, h, margin);
      }
    } else {
      NoRoomNoFit(w, h, margin);
    }
  }

  lemma NoRoomNoFit(w: int, h: int, margin: real)
    requires !(2.0 * margin < w as real && 2.0 * margin < h as real)
    ensures !PathInside(DiagonalPath(), w, h, margin)
  {
    var cmds := DiagonalPath();
    assert cmds[..0] == [];
    assert MinX(cmds) == 0.0 && MaxX(cmds) == 2.0 && MinY(cmds) == 0.0 && MaxY(cmds) == 2.0;
    assert Scale(cmds, w, h, margin) == 1.0;
    var f := FitOf(cmds, w, h, margin);
    assert f.commands[0].endPos == Point(2.0, 2.0);
  }

  /** Room before the box minus room behind it. */
  function Imbalance(side: int, low: real, span: real, s: real, offset: int): real {
    var before := Times(low, s) + offset as real;
    before - (side as real - (before + Times(span, s)))
  }

  /** On any canvas the scaled box stands in the middle, up to one pixel in each direction. */
  lemma FitIsCentred(cmds: seq<Command>, w: int, h: int, margin: real)
    requires cmds != []
    ensures
      var f := FitOf(cmds, w, h, margin);
      var s := Scale(cmds, w, h, margin);
      && -1.0 <= Imbalance(w, MinX(cmds), SpanX(cmds), s, f.hOff) <= 1.0
      && -1.0 <= Imbalance(h, MinY(cmds), SpanY(cmds), s, f.vOff) <= 1.0
  {
  }

  /** For the outermost points of a path at least one unit wide: what is left free on one side
      and on the other differs by a pixel at most. */
  lemma OutermostPointsCentred(cmds: seq<Command>, w: int, h: int, margin: real, p: Point, q: Point)
    requires cmds != [] && OnPath(p, cmds) && OnPath(q, cmds)
    ensures
      var f := FitOf(cmds, w, h, margin);
      var s := Scale(cmds, w, h, margin);
      && ((forall r: Point :: OnPath(r, cmds) ==> p.x <= r.x <= q.x) && q.x - p.x >= 1.0 ==>
            var left := OnCanvas(ScalePoint(p, s), f).x;
            var right := w as real - OnCanvas(ScalePoint(q, s), f).x;
            -1.0 <= left - right <= 1.0)
      && ((forall r: Point :: OnPath(r, cmds) ==> p.y <= r.y <= q.y) && q.y - p.y >= 1.0 ==>
            var above := OnCanvas(ScalePoint(p, s), f).y;
            var below := h as real - OnCanvas(ScalePoint(q, s), f).y;
            -1.0 <= above - below <= 1.0)
  {
    FitIsCentred(cmds, w, h, margin);
    PathInBox(p, cmds);
    PathInBox(q, cmds);
    var a, b := SpanningX(cmds);
    var c, d := SpanningY(cmds);
    var s := Scale(cmds, w, h, margin);
    TimesDifference(q.x, p.x, s);
    TimesDifference(q.y, p.y, s);
    hide MinX, MaxX, MinY, MaxY, Times, OnPath, Offset, Scale;
  }

  // ---------- the fit is a similarity ----------

  function StartOf(cmds: seq<Command>, k: nat): Point
    requires k <= |cmds|
  {
    if k == 0 then ORIGIN else cmds[k - 1].endPos
  }

  function CentreOf(cmds: seq<Command>, k: nat): Point
    requires k < |cmds|
  {
    Point(StartOf(cmds, k).x + cmds[k].arcCenter.x, StartOf(cmds, k).y + cmds[k].arcCenter.y)
  }

  function DistanceSquared(p: Point, q: Point): real {
    Square(p.x - q.x) + Square(p.y - q.y)
  }

  lemma ScaledDistance(p: Point, q: Point, s: real)
    ensures DistanceSquared(ScalePoint(p, s), ScalePoint(q, s)) == Times(DistanceSquared(p, q), Square(s))
  {
  }

  /** Start, end and centre of every command are the originals times one positive scale;
      squared distances grow by its square, so arcs stay arcs. */
  lemma FitIsSimilarity(cmds: seq<Command>, w: int, h: int, margin: real, k: nat)
    requires k < |cmds|
    ensures
      var s := Scale(cmds, w, h, margin);
      var out := FitOf(cmds, w, h, margin).commands;
      && s > 0.0 && |out| == |cmds|
      && StartOf(out, k) == ScalePoint(StartOf(cmds, k), s)
      && out[k].endPos == ScalePoint(cmds[k].endPos, s)
      && CentreOf(out, k) == ScalePoint(CentreOf(cmds, k), s)
      && out[k].kind == cmds[k].kind && out[k].recordIndex == cmds[k].recordIndex
      && DistanceSquared(StartOf(out, k), CentreOf(out, k))
         == Times(DistanceSquared(StartOf(cmds, k), CentreOf(cmds, k)), Square(s))
      && (DistanceSquared(StartOf(out, k), CentreOf(out, k)) == DistanceSquared(out[k].endPos, CentreOf(out, k))
          <==> DistanceSquared(StartOf(cmds, k), CentreOf(cmds, k)) == DistanceSquared(cmds[k].endPos, CentreOf(cmds, k)))
  {
    hide Scale, DistanceSquared, Square, Offset;
    var s := Scale(cmds, w, h, margin);
    ScaleIsPositive(cmds, w, h, margin);
    SquareSign(s);
    ScaledDistance(StartOf(cmds, k), CentreOf(cmds, k), s);
    ScaledDistance(cmds[k].endPos, CentreOf(cmds, k), s);
    ScaledSum(StartOf(cmds, k), cmds[k].arcCenter, s);
    TimesOrder(DistanceSquared(StartOf(cmds, k), CentreOf(cmds, k)),
               DistanceSquared(cmds[k].endPos, CentreOf(cmds, k)), Square(s));
  }

  lemma ScaledSum(p: Point, q: Point, s: real)
    ensures ScalePoint(Point(p.x + q.x, p.y + q.y), s)
            == Point(ScalePoint(p, s).x + ScalePoint(q, s).x, ScalePoint(p, s).y + ScalePoint(q, s).y)
    ensures ScalePoint(ORIGIN, s) == ORIGIN
  {
  }

  // ---------- flattening commutes with fitting ----------

  lemma {:induction false} FlatteningKeepsBox(cmds: seq<Command>, threshold: real)
    ensures MinX(FlattenCommands(cmds, threshold)) == MinX(cmds)
    ensures MaxX(FlattenCommands(cmds, threshold)) == MaxX(cmds)
    ensures MinY(FlattenCommands(cmds, threshold)) == MinY(cmds)
    ensures MaxY(FlattenCommands(cmds, threshold)) == MaxY(cmds)
  {
    if cmds != [] {
      var n := |cmds| - 1;
      FlatteningKeepsBox(cmds[..n], threshold);
      assert FlattenCommands(cmds, threshold)[..n] == FlattenCommands(cmds[..n], threshold);
    }
  }

  lemma ScaledSmallArc(i: real, j: real, t: real, s: real)
    requires s > 0.0
    ensures SmallArc(Times(i, s), Times(j, s), Times(t, s)) <==> SmallArc(i, j, t)
  {
    hide Square;
    TimesSign(s, t);
    assert Times(s, t) == Times(t, s);
    SquareSign(s);
    SquareOfProduct(i, s);
    SquareOfProduct(j, s);
    SquareOfProduct(t, s);
    var q := Square(i) + Square(j);
    assert Times(q, Square(s)) == Times(Square(i), Square(s)) + Times(Square(j), Square(s));
    TimesOrder(q, Square(t), Square(s));
    TimesOrder(0.0, q, Square(s));
    assert Times(0.0, Square(s)) == 0.0;
  }

  /** Flattening in millimetres and then fitting is fitting and then flattening with the
      scaled threshold, with the same scale and offsets. */
  lemma {:induction false} FlattenCommutesWithFit(cmds: seq<Command>, threshold: real, w: int, h: int, margin: real)
    ensures
      var f := FitOf(cmds, w, h, margin);
      FitOf(FlattenCommands(cmds, threshold), w, h, margin)
      == f.(commands := FlattenCommands(f.commands, Times(threshold, Scale(cmds, w, h, margin))))
  {
    hide MinX, MaxX, MinY, MaxY, SmallArc, Offset, Times;
    var s := Scale(cmds, w, h, margin);
    FlatteningKeepsBox(cmds, threshold);
    ScaleIsPositive(cmds, w, h, margin);
    if cmds != [] {
      var a := ScaleCommands(FlattenCommands(cmds, threshold), s);
      var b := FlattenCommands(ScaleCommands(cmds, s), Times(threshold, s));
      forall k | 0 <= k < |cmds|
        ensures a[k] == b[k]
      {
        ScaledSmallArc(cmds[k].arcCenter.x, cmds[k].arcCenter.y, threshold, s);
      }
      assert a == b;
    }
  }

  /** The offsets fit the `int` they are stored in. */
  lemma OffsetsFitInt(cmds: seq<Command>, w: int, h: int, margin: real)
    requires cmds != [] && 0.0 <= margin
    requires 2.0 * margin < w as real && 2.0 * margin < h as real
    ensures 0 <= FitOf(cmds, w, h, margin).hOff <= w
    ensures 0 <= FitOf(cmds, w, h, margin).vOff <= h
  {
    hide Scale, Offset, InsideMargins;
    FittedPathIsInside(cmds, w, h, margin);
    OnCanvasOrigin(FitOf(cmds, w, h, margin), w, h, margin);
  }

  lemma OnCanvasOrigin(f: Fitted, w: int, h: int, margin: real)
    requires InsideMargins(OnCanvas(ORIGIN, f), w, h, margin) && 0.0 <= margin
    ensures 0 <= f.hOff <= w && 0 <= f.vOff <= h
  {
  }
}
