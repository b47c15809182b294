/** Lines and files that the PLC gets otherwise than they are shown. */
module Counterexamples {
  import opened Text
  import opened Decimal
  import opened Reals
  import opened ArcFlatten
  import opened GCode
  import opened GCodeFile
  import opened Records
  import opened Transfer
  import opened Delivery

  // ---------- a rejected line ----------

  const NO_J_VALUE := "G2 I1 J"

  lemma NoJValueWords()
    ensures Tokens(NO_J_VALUE) == ["G2", "I1", "J"]
  {
    var ts := ["G2", "I1", "J"];
    assert ts[1..] == ["I1", "J"] && ts[1..][1..] == ["J"];
    assert Join(ts) == NO_J_VALUE;
    TokensOfJoin(ts);
  }

  lemma OneAndNothing()
    ensures ParseValue("1") == 1.0 && ParseValue("") == 0.0
  {
  }

  lemma NoJValueFires()
    ensures Fires(["G2", "I1", "J"], 2.0)
  {
    OneAndNothing();
    hide ParseValue;
    var ts := ["G2", "I1", "J"];
    assert ts[1..] == ["I1", "J"] && ts[1..][1..] == ["J"] && ["J"][1..] == [];
    assert IsArcWord("G2") by {
      assert "G2"[1..] == "2";
    }
    hide IsArcWord;
    assert "I1"[1..] == "1" && "J"[1..] == "";
    assert LastArc(ts) >= 0;
    assert LastI(ts, 0.0) == 1.0 && LastJ(ts, 0.0) == 0.0;
  }

  lemma NoJValueIsSent()
    ensures FlattenLine(NO_J_VALUE, 2.0) == "G01"
  {
    hide Tokens, Fires;
    var ts := ["G2", "I1", "J"];
    assert ts[1..] == ["I1", "J"] && ts[1..][1..] == ["J"] && ["J"][1..] == [];
    NoJValueWords();
    NoJValueFires();
    assert IsArcWord("G2") by {
      assert "G2"[1..] == "2";
    }
    assert !IsArcWord("I1") && !IsArcWord("J");
    assert LastArc(ts) == 0;
    assert Rewrite(["I1", "J"], -1) == [];
    assert Rewritten(ts) == ["G01"];
  }

  lemma NoJValueIsBad(pos: Point)
    ensures ReadLine(NO_J_VALUE, pos).Bad?
  {
    hide Tokens, Stod, FirstMotion, GNumber;
    var ts := ["G2", "I1", "J"];
    assert ts[1..] == ["I1", "J"] && ts[1..][1..] == ["J"];
    NoJValueWords();
    FirstWordDecides(ts);
    var c := Coords(pos.x, pos.y, 0.0, 0.0);
    assert forall d :: ReadCoords(["J"], d).None?;
    assert ReadCoords(["I1", "J"], c).None?;
  }

  lemma FirstWordDecides(ts: seq<string>)
    requires ts != []
    ensures ts[0] == "G2" ==> DetectKind(ts) == G02
    ensures ts[0] == "G01" ==> DetectKind(ts) == G01
  {
    hide FirstMotion;
    AddressIsNoMotion(ts[0]);
    assert "G2"[1..] == "2";
    DetectStep(ts);
  }

  lemma JoinOne(t: string)
    ensures Join([t]) == t
  {
  }

  lemma G01ReadsAsLine(pos: Point)
    ensures ReadLine("G01", pos) == Read(G01, pos, ORIGIN)
  {
    hide Tokens, DetectKind, Stod, GNumber, Join;
    assert Join(["G01"]) == "G01" by {
      JoinOne("G01");
    }
    TokensOfJoin(["G01"]);
    FirstWordDecides(["G01"]);
    var c := Coords(pos.x, pos.y, 0.0, 0.0);
    assert ["G01"][1..] == [] && !IsAxisWord("G01");
    assert ReadCoords([], c) == Some(c);
  }

  /** The preview drops this line, the PLC gets a G01. */
  lemma RejectedLineIsSentAsLine(b: real, pos: Point)
    ensures ReadLine(NO_J_VALUE, pos).Bad?
    ensures FlattenLine(NO_J_VALUE, 2.0) == "G01"
    ensures ReadLine("G01", pos) == Read(G01, pos, ORIGIN)
    ensures !FormsAgreeOn(NO_J_VALUE, 2.0, b)
  {
    hide ReadLine, FlattenLine, FormsAgreeOn;
    NoJValueIsBad(pos);
    NoJValueIsSent();
    G01ReadsAsLine(pos);
    LineAndCommandFormsAgree(NO_J_VALUE, 2.0, b, pos);
  }

  // ---------- an arc word after the deciding one ----------

  const TWO_ARCS := "G2 G3 I1"

  lemma TwoArcsWords()
    ensures Tokens(TWO_ARCS) == ["G2", "G3", "I1"]
  {
    var ts := ["G2", "G3", "I1"];
    assert ts[1..] == ["G3", "I1"] && ts[1..][1..] == ["I1"];
    assert Join(ts) == TWO_ARCS;
    TokensOfJoin(ts);
  }

  lemma TwoArcsFires()
    ensures LastArc(["G2", "G3", "I1"]) == 1 && FirstMotion(["G2", "G3", "I1"]) == 0
    ensures Fires(["G2", "G3", "I1"], 2.0) && Rewritten(["G2", "G3", "I1"]) == ["G2", "G01"]
  {
    OneAndNothing();
    hide ParseValue;
    var ts := ["G2", "G3", "I1"];
    assert ts[1..] == ["G3", "I1"] && ["G3", "I1"][1..] == ["I1"] && ["I1"][1..] == [];
    assert "G2"[1..] == "2" && "G3"[1..] == "3" && "I1"[1..] == "1";
    assert IsArcWord("G2") && IsArcWord("G3") && !IsArcWord("I1");
    AddressIsNoMotion("G2");
    hide IsArcWord, GNumber, KindOfNumber;
    assert LastI(ts, 0.0) == 1.0 && LastJ(ts, 0.0) == 0.0;
    assert LastArc(["I1"]) == -1 && LastArc(["G3", "I1"]) == 0;
    assert Rewrite(["I1"], -1) == [];
    assert Rewrite(["G3", "I1"], 0) == ["G01"];
  }

  lemma I1HasNumber()
    ensures FirstHasNumber(["I1"])
  {
    assert "I1"[1..] == "1";
  }

  lemma TwoArcsIsNumbered()
    ensures AllNumbered(["G2", "G3", "I1"])
  {
    I1HasNumber();
    hide FirstHasNumber;
    assert ["G2", "G3", "I1"][1..] == ["G3", "I1"] && ["G3", "I1"][1..] == ["I1"] && ["I1"][1..] == [];
    assert AllNumbered(["I1"]) && AllNumbered(["G3", "I1"]);
  }

  lemma TwoArcsIsRead(pos: Point)
    ensures ReadLine(TWO_ARCS, pos).Read?
  {
    hide Tokens, GNumber, ReadCoords, DetectKind, AllNumbered;
    var ts := ["G2", "G3", "I1"];
    TwoArcsWords();
    TwoArcsIsNumbered();
    FirstWordDecides(ts);
    TokensAreWords(TWO_ARCS);
    ReadsWhenNumbered(ts, Coords(pos.x, pos.y, 0.0, 0.0));
  }

  /** The preview accepts this line and draws a straight line; the PLC gets an arc. */
  lemma SecondArcStaysArc(pos: Point)
    ensures ReadLine(TWO_ARCS, pos).Read? && FlattenReading(ReadLine(TWO_ARCS, pos), 2.0).kind == G01
    ensures FlattenLine(TWO_ARCS, 2.0) == "G2 G01"
    ensures ReadLine("G2 G01", pos).Read? && ReadLine("G2 G01", pos).kind == G02
    ensures !FormsAgreeOn(TWO_ARCS, 2.0, 2.0)
  {
    hide Tokens, FirstMotion, GNumber, LastArc, ReadCoords, LastI, LastJ, Rewrite, Survivors, SmallArc;
    var ts := ["G2", "G3", "I1"];
    TwoArcsWords();
    TwoArcsIsRead(pos);
    TwoArcsFires();
    FirstWordDecides(ts);
    TokensAreWords(TWO_ARCS);
    SameOffsets(ts, Coords(pos.x, pos.y, 0.0, 0.0));
    RewrittenIsKept(ts);
    assert Join(["G2", "G01"]) == "G2 G01" by {
      assert ["G2", "G01"][1..] == ["G01"];
    }
    hide Join;
    ReadRewritten(TWO_ARCS, 2.0, pos);
    LineAndCommandFormsAgree(TWO_ARCS, 2.0, 2.0, pos);
    hide FormsAgreeOn;
  }

  // ---------- two thresholds ----------

  const SMALL_ARC := "G2 I1"

  lemma SmallArcWords()
    ensures Tokens(SMALL_ARC) == ["G2", "I1"]
  {
    var ts := ["G2", "I1"];
    assert ts[1..] == ["I1"];
    assert Join(ts) == SMALL_ARC;
    TokensOfJoin(ts);
  }

  lemma SmallArcScan()
    ensures LastArc(["G2", "I1"]) == 0 && FirstMotion(["G2", "I1"]) == 0
    ensures LastI(["G2", "I1"], 0.0) == 1.0 && LastJ(["G2", "I1"], 0.0) == 0.0
    ensures Rewritten(["G2", "I1"]) == ["G01"]
  {
    OneAndNothing();
    hide ParseValue;
    var ts := ["G2", "I1"];
    assert ts[1..] == ["I1"] && ["I1"][1..] == [] && "G2"[1..] == "2" && "I1"[1..] == "1";
    assert IsArcWord("G2") && !IsArcWord("I1");
    AddressIsNoMotion("G2");
    hide IsArcWord, GNumber, KindOfNumber;
    assert LastArc(["I1"]) == -1;
    assert Rewrite(["I1"], -1) == [];
  }

  lemma SmallArcIsRead(pos: Point)
    ensures ReadLine(SMALL_ARC, pos).Read? && IsArcLine(Tokens(SMALL_ARC))
  {
    hide Tokens, GNumber, ReadCoords, DetectKind;
    var ts := ["G2", "I1"];
    SmallArcWords();
    I1HasNumber();
    assert ts[1..] == ["I1"] && ["I1"][1..] == [];
    assert AllNumbered(["I1"]) && AllNumbered(ts);
    hide AllNumbered, FirstHasNumber;
    FirstWordDecides(ts);
    TokensAreWords(SMALL_ARC);
    ReadsWhenNumbered(ts, Coords(pos.x, pos.y, 0.0, 0.0));
  }

  /** An arc of radius 1 is sent as it is shown exactly if both thresholds or none are above 1. */
  lemma SmallArcAgrees(a: real, b: real)
    ensures FormsAgreeOn(SMALL_ARC, a, b) <==> (a > 1.0 <==> b > 1.0)
  {
    hide Tokens, LastArc, LastI, LastJ, FirstMotion, Survivors, DetectKind, ReadLine, SmallArc;
    SmallArcWords();
    SmallArcScan();
    SmallArcIsRead(ORIGIN);
    TokensAreWords(SMALL_ARC);
    RewrittenIsKept(["G2", "I1"]);
    UnitRadius(a);
    UnitRadius(b);
  }

  lemma UnitRadius(b: real)
    ensures SmallArc(1.0, 0.0, b) <==> b > 1.0
  {
    if b > 0.0 {
      SquareOrder(1.0, b);
    }
  }

  lemma SecondLineOnly(line: string)
    requires TrimRight(line) == line && !Blank(line)
    ensures RecordsOf(["", line]) == [line]
    ensures TrimRight("") == "" && Blank("")
  {
    assert ["", line][1..] == [line] && [line][1..] == [];
    assert NonBlank([]) == [] && NonBlank([line]) == [line];
  }

  lemma SmallArcIsTrimmed()
    ensures TrimRight(SMALL_ARC) == SMALL_ARC && !Blank(SMALL_ARC)
  {
    assert SMALL_ARC[0] == 'G';
  }

  /** With the preview's threshold at its default 0 and the PLC's at 2 this file is shown as
      an arc and delivered as a line; with 2 for both it is delivered as it is shown. */
  lemma ThresholdsOfOneFile()
    ensures
      var lines := ["", SMALL_ARC];
      var sent := Parse(Delivered(lines, 2.0)).commands;
      && FileGuard(lines, 2.0, 2.0) && !FileGuard(lines, 2.0, 0.0)
      && SamePath(sent, FlattenCommands(Parse(lines).commands, 2.0), IndexOffset(lines))
      && !SamePath(sent, FlattenCommands(Parse(lines).commands, 0.0), IndexOffset(lines))
  {
    hide FormsAgreeOn, ReadLine, TrimRight, Blank, SamePath, Parse, FlattenCommands, Delivered, RecordsOf;
    var lines := ["", SMALL_ARC];
    SmallArcIsTrimmed();
    SecondLineOnly(SMALL_ARC);
    BlankIsSkipped("", ORIGIN);
    SmallArcAgrees(2.0, 2.0);
    SmallArcAgrees(2.0, 0.0);
    assert !AllAgree([SMALL_ARC], 2.0, 0.0) by {
      assert !FormsAgreeOn([SMALL_ARC][0], 2.0, 0.0);
    }
    DeliveryDrawsThePreview(lines, 2.0, 2.0);
    DeliveryDrawsThePreview(lines, 2.0, 0.0);
  }

  // ---------- a line that turns into a comment ----------

  const INDENTED_COMMENT := " ; G2 I1"

  lemma BlankInFront(s: string)
    ensures Tokens(" " + s) == Tokens(s)
  {
    assert (" " + s)[1..] == s;
  }

  lemma IndentedCommentWords()
    ensures Tokens(INDENTED_COMMENT) == [";", "G2", "I1"]
  {
    hide Tokens;
    var ts := [";", "G2", "I1"];
    assert ts[1..] == ["G2", "I1"] && ts[1..][1..] == ["I1"];
    assert Join(ts) == "; G2 I1";
    TokensOfJoin(ts);
    assert INDENTED_COMMENT == " " + "; G2 I1";
    BlankInFront("; G2 I1");
  }

  lemma IndentedCommentScan()
    ensures FirstMotion([";", "G2", "I1"]) == 1 && LastArc([";", "G2", "I1"]) == 1
    ensures DetectKind([";", "G2", "I1"]) == G02
    ensures LastI([";", "G2", "I1"], 0.0) == 1.0 && LastJ([";", "G2", "I1"], 0.0) == 0.0
    ensures Rewritten([";", "G2", "I1"]) == [";", "G01"]
  {
    SmallArcScan();
    var ts := [";", "G2", "I1"];
    assert ts[1..] == ["G2", "I1"] && ts[1] == "G2";
    assert GNumber(";") == "" && !IsOffsetWord(";") && !IsArcWord(";");
    DetectStep(ts);
    FirstWordDecides(["G2", "I1"]);
    assert Rewrite(["G2", "I1"], 0) == ["G01"];
    hide GNumber, IsArcWord, KindOfNumber, FirstMotion;
  }

  lemma IndentedCommentIsNumbered()
    ensures AllNumbered([";", "G2", "I1"])
  {
    I1HasNumber();
    hide FirstHasNumber;
    assert [";", "G2", "I1"][1..] == ["G2", "I1"] && ["G2", "I1"][1..] == ["I1"] && ["I1"][1..] == [];
    assert AllNumbered(["I1"]) && AllNumbered(["G2", "I1"]);
  }

  lemma IndentedCommentIsRead(pos: Point)
    ensures ReadLine(INDENTED_COMMENT, pos).Read?
  {
    hide Tokens, GNumber, ReadCoords, DetectKind, AllNumbered, FirstMotion, LastArc, LastI, LastJ, Rewrite;
    IndentedCommentWords();
    IndentedCommentScan();
    IndentedCommentIsNumbered();
    TokensAreWords(INDENTED_COMMENT);
    ReadsWhenNumbered([";", "G2", "I1"], Coords(pos.x, pos.y, 0.0, 0.0));
  }

  /** The reader sees a comment only in the first column: the preview draws this line, the
      PLC gets a comment. */
  lemma IndentedCommentIsLost(b: real, pos: Point)
    ensures ReadLine(INDENTED_COMMENT, pos).Read?
    ensures FlattenLine(INDENTED_COMMENT, 2.0) == "; G01" && ReadLine("; G01", pos).Skipped?
    ensures !FormsAgreeOn(INDENTED_COMMENT, 2.0, b)
  {
    hide Tokens, LastArc, LastI, LastJ, FirstMotion, Survivors, DetectKind, ReadCoords, Rewrite;
    var ts := [";", "G2", "I1"];
    IndentedCommentWords();
    IndentedCommentScan();
    IndentedCommentIsRead(pos);
    TokensAreWords(INDENTED_COMMENT);
    RewrittenIsKept(ts);
    UnitRadius(2.0);
    assert Join([";", "G01"]) == "; G01" by {
      assert [";", "G01"][1..] == ["G01"];
    }
    hide Join;
    LineAndCommandFormsAgree(INDENTED_COMMENT, 2.0, b, pos);
    hide FormsAgreeOn, SmallArc;
  }

  // ---------- a command on the first line ----------

  /** A command on the first line is shown and never sent, whatever the thresholds. */
  lemma FirstCommandIsNotSent(a: real, b: real)
    ensures Delivered(["G01"], a) == []
    ensures FlattenCommands(Parse(["G01"]).commands, b) == [Command(G01, ORIGIN, ORIGIN, 1, 0)]
    ensures !FileGuard(["G01"], a, b)
  {
    G01ReadsAsLine(ORIGIN);
    G01IsTrimmed();
    hide ReadLine, TrimRight, Blank;
    assert ["G01"][1..] == [] && NonBlank([]) == [];
    assert ParseFrom([], 1, 1, ORIGIN).commands == [];
  }

  lemma G01IsTrimmed()
    ensures TrimRight("G01") == "G01" && !Blank("G01")
  {
    assert "G01"[0] == 'G';
  }
}
