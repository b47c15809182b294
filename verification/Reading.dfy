/** What a line of G-code means, letter by letter. */
module Reading {
  import opened Text
  import opened Decimal
  import opened ArcFlatten
  import opened GCode
  import opened Numbers

  // ---------- the type of a command ----------

  /** The letter G in either case, any zeros, and `d`. */
  ghost predicate SpellsG(t: string, d: string) {
    exists n: nat :: n < |t| && (t == "G" + Zeros(n) + d || t == "g" + Zeros(n) + d)
  }

  /** The letter G in either case and one or more zeros. */
  ghost predicate SpellsG0(t: string) {
    exists n: nat :: 0 < n < |t| && (t == "G" + Zeros(n) || t == "g" + Zeros(n))
  }

  lemma {:induction false} ZerosStrip(n: nat)
    ensures StripZeros(Zeros(n)) == ""
  {
    if n > 0 {
      assert Zeros(n)[1..] == Zeros(n - 1);
      ZerosStrip(n - 1);
    }
  }

  lemma RapidMeaning(t: string)
    ensures GNumber(t) == "0" <==> SpellsG0(t)
  {
    hide StripZeros;
    if GNumber(t) == "0" {
      var n := StripZerosMeaning(t[1..]);
      assert t == [t[0]] + t[1..];
      assert StripZeros(t[1..]) == "";
      assert t[1..] == Zeros(n);
    }
    forall n: nat | 0 < n < |t| && (t == "G" + Zeros(n) || t == "g" + Zeros(n))
      ensures GNumber(t) == "0"
    {
      assert t[1..] == Zeros(n);
      ZerosStrip(n);
    }
  }

  /** The type that a word gives a line, from its letters alone. */
  lemma KindByLetters(t: string)
    ensures KindOfNumber(GNumber(t)) == G00 <==> SpellsG0(t)
    ensures KindOfNumber(GNumber(t)) == G01 <==> SpellsG(t, "1")
    ensures KindOfNumber(GNumber(t)) == G02 <==> SpellsG(t, "2")
    ensures KindOfNumber(GNumber(t)) == G03 <==> SpellsG(t, "3")
    ensures KindOfNumber(GNumber(t)) == NoType <==>
            !SpellsG0(t) && !SpellsG(t, "1") && !SpellsG(t, "2") && !SpellsG(t, "3")
  {
    RapidMeaning(t);
    GNumberMeaning(t, "1");
    GNumberMeaning(t, "2");
    GNumberMeaning(t, "3");
    hide GNumber, SpellsG0;
  }

  ghost predicate Spells(t: string, kind: CommandType) {
    match kind
    case NoType => !SpellsG0(t) && !SpellsG(t, "1") && !SpellsG(t, "2") && !SpellsG(t, "3")
    case G00 => SpellsG0(t)
    case G01 => SpellsG(t, "1")
    case G02 => SpellsG(t, "2")
    case G03 => SpellsG(t, "3")
  }

  /** A line is a command exactly if it opens no comment and some word spells a type, and the
      first such word gives its type. */
  lemma FirstWordGivesType(line: string, pos: Point)
    ensures ReadLine(line, pos).Skipped? <==>
            (line != "" && (line[0] == ';' || line[0] == '('))
            || forall k :: 0 <= k < |Tokens(line)| ==> Spells(Tokens(line)[k], NoType)
    ensures ReadLine(line, pos).Read? ==>
              exists m :: 0 <= m < |Tokens(line)|
                && ReadLine(line, pos).kind != NoType && Spells(Tokens(line)[m], ReadLine(line, pos).kind)
                && forall k :: 0 <= k < m ==> Spells(Tokens(line)[k], NoType)
  {
    var ts := Tokens(line);
    FirstMotionIsFirst(ts);
    BlankHasNoTokens(line);
    forall k | 0 <= k < |ts|
      ensures forall kind :: Spells(ts[k], kind) <==> KindOfNumber(GNumber(ts[k])) == kind
    {
      KindByLetters(ts[k]);
    }
    hide Spells, GNumber, Tokens, ReadCoords, KindOfNumber, FirstMotion;
    var m := FirstMotion(ts);
    if m >= 0 && ReadLine(line, pos).Read? {
      assert Spells(ts[m], ReadLine(line, pos).kind);
    }
  }

  // ---------- printing a command and reading it back ----------

  /** An address word: its letter, in either case, and its number in the same word or the next. */
  datatype Address = Address(letter: char, text: string, apart: bool)

  function Words(a: Address): seq<string> {
    if a.apart then [[a.letter], a.text] else [[a.letter] + a.text]
  }

  function AllOf(addresses: seq<Address>): seq<string> {
    if addresses == [] then [] else Words(addresses[0]) + AllOf(addresses[1..])
  }

  predicate Readable(addresses: seq<Address>) {
    forall k :: 0 <= k < |addresses| ==>
      addresses[k].letter in "XxYyIiJj" && IsWord(addresses[k].text)
      && Stod(CommaToPoint(addresses[k].text)).Some?
  }

  /** X, Y, I and J take the number of the last word with their letter. */
  function Assigned(c: Coords, addresses: seq<Address>): Coords
    requires Readable(addresses)
    decreases |addresses|
  {
    if addresses == [] then c
    else
      var v := Stod(CommaToPoint(addresses[0].text)).value;
      var l := addresses[0].letter;
      var d := if l == 'X' || l == 'x' then c.(x := v)
               else if l == 'Y' || l == 'y' then c.(y := v)
               else if l == 'I' || l == 'i' then c.(i := v)
               else c.(j := v);
      Assigned(d, addresses[1..])
  }

  lemma {:induction false} AddressesRead(addresses: seq<Address>, c: Coords)
    requires Readable(addresses)
    ensures AllWords(AllOf(addresses))
    ensures ReadCoords(AllOf(addresses), c) == Some(Assigned(c, addresses))
    decreases |addresses|
  {
    if addresses != [] {
      var a := addresses[0];
      var v := Stod(CommaToPoint(a.text)).value;
      AddressesRead(addresses[1..], SetCoord(c, [a.letter] + a.text, v));
      AddressesRead(addresses[1..], SetCoord(c, [a.letter], v));
      AddressReads(a, AllOf(addresses[1..]), c);
      hide Stod, CommaToPoint, ReadCoords;
    }
  }

  lemma AddressReads(a: Address, rest: seq<string>, c: Coords)
    requires a.letter in "XxYyIiJj" && IsWord(a.text) && Stod(CommaToPoint(a.text)).Some?
    ensures AllWords(Words(a))
    ensures ReadCoords(Words(a) + rest, c)
            == ReadCoords(rest, SetCoord(c, [a.letter], Stod(CommaToPoint(a.text)).value))
    ensures SetCoord(c, [a.letter] + a.text, Stod(CommaToPoint(a.text)).value)
            == SetCoord(c, [a.letter], Stod(CommaToPoint(a.text)).value)
  {
    hide ReadCoords;
    var t := [a.letter] + a.text;
    assert t[1..] == a.text;
    if a.apart {
      ReadDetached([a.letter], a.text, rest, c);
    } else {
      ReadAttached(t, rest, c);
    }
  }

  /** A type word and address words with their numbers, joined by blanks, read back as they
      were meant: coordinates that are not named keep the tool's position, I and J are 0. */
  lemma PrintedCommandReads(g: string, kind: CommandType, addresses: seq<Address>, pos: Point)
    requires IsWord(g) && kind != NoType && Spells(g, kind) && Readable(addresses)
    ensures
      var c := Assigned(Coords(pos.x, pos.y, 0.0, 0.0), addresses);
      ReadLine(Join([g] + AllOf(addresses)), pos) == Read(kind, Point(c.x, c.y), Point(c.i, c.j))
  {
    hide Tokens, Stod, Join, ReadCoords, DetectKind, Assigned, Readable;
    var ts := [g] + AllOf(addresses);
    var c := Coords(pos.x, pos.y, 0.0, 0.0);
    AddressesRead(addresses, c);
    assert AllWords(ts);
    TokensOfJoin(ts);
    TypeWordIsNoAddress(g, kind);
    TypeWordReads(g, AllOf(addresses), c);
    TypeWordDecides(ts, kind);
    JoinNonempty(ts);
  }

  lemma TypeWordIsNoAddress(g: string, kind: CommandType)
    requires IsWord(g) && kind != NoType && Spells(g, kind)
    ensures g[0] == 'G' || g[0] == 'g'
    ensures KindOfNumber(GNumber(g)) == kind
  {
    KindByLetters(g);
    hide SpellsG, SpellsG0;
  }

  lemma TypeWordReads(g: string, rest: seq<string>, c: Coords)
    requires g != "" && (g[0] == 'G' || g[0] == 'g')
    ensures ReadCoords([g] + rest, c) == ReadCoords(rest, c)
  {
    assert ([g] + rest)[1..] == rest;
  }

  lemma TypeWordDecides(ts: seq<string>, kind: CommandType)
    requires ts != [] && KindOfNumber(GNumber(ts[0])) == kind != NoType
    ensures DetectKind(ts) == kind
  {
    DetectStep(ts);
  }

  lemma PrintedNumeral(n: nat)
    ensures IsWord(Print(n)) && Stod(CommaToPoint(Print(n))) == Some(n as real)
    ensures IsWord("-" + Print(n)) && Stod(CommaToPoint("-" + Print(n))) == Some(-(n as real))
  {
    hide NatValue, Stod, Print;
    PrintedDigits(n);
    var w := Whole(Print(n));
    NumberReads("", w, "");
    NumberReads("-", w, "");
    NoExponent(n as real);
    assert "" + (Print(n) + "") == Print(n) && "-" + (Print(n) + "") == "-" + Print(n);
    assert CommaToPoint("") == "";
  }

  /** The arc to (x, -y) around the point that is (i, -j) from its start. */
  function PrintedArc(x: nat, y: nat, i: nat, j: nat): seq<Address> {
    [Address('X', Print(x), false), Address('Y', "-" + Print(y), false),
     Address('I', Print(i), false), Address('J', "-" + Print(j), true)]
  }

  lemma PrintedArcAssigns(x: nat, y: nat, i: nat, j: nat, c: Coords)
    ensures Readable(PrintedArc(x, y, i, j))
    ensures Assigned(c, PrintedArc(x, y, i, j)) == Coords(x as real, -(y as real), i as real, -(j as real))
  {
    PrintedNumeral(x);
    PrintedNumeral(y);
    PrintedNumeral(i);
    PrintedNumeral(j);
    hide Stod, CommaToPoint, Print, IsWord;
    var as0 := PrintedArc(x, y, i, j);
    var as1, as2, as3 := as0[1..], as0[2..], as0[3..];
    assert as1[1..] == as2 && as2[1..] == as3 && as3[1..] == [];
    var c1 := c.(x := x as real);
    var c2 := c1.(y := -(y as real));
    var c3 := c2.(i := i as real);
    assert Assigned(c3.(j := -(j as real)), []) == c3.(j := -(j as real));
    assert Assigned(c3, as3) == c3.(j := -(j as real));
    assert Assigned(c2, as2) == Assigned(c3, as3);
    assert Assigned(c1, as1) == Assigned(c2, as2);
  }

  lemma SpellsG03()
    ensures Spells("G03", G03) && IsWord("G03")
  {
    assert Zeros(1) == "0" && "G03" == "G" + Zeros(1) + "3";
  }

  /** With whole numbers: a printed arc is read with its very numbers. */
  lemma PrintedArcReads(x: nat, y: nat, i: nat, j: nat, pos: Point)
    ensures ReadLine(Join(["G03"] + AllOf(PrintedArc(x, y, i, j))), pos)
            == Read(G03, Point(x as real, -(y as real)), Point(i as real, -(j as real)))
  {
    hide *;
    SpellsG03();
    var c := Coords(pos.x, pos.y, 0.0, 0.0);
    PrintedArcAssigns(x, y, i, j, c);
    PrintedCommandReads("G03", G03, PrintedArc(x, y, i, j), pos);
  }

  lemma PrintedArcWords(x: nat, y: nat, i: nat, j: nat)
    ensures AllOf(PrintedArc(x, y, i, j)) == ["X" + Print(x), "Y" + ("-" + Print(y)), "I" + Print(i), "J", "-" + Print(j)]
  {
    hide Print;
    var p := PrintedArc(x, y, i, j);
    assert p[1..][1..] == p[2..] && p[2..][1..] == p[3..] && p[3..][1..] == [];
    assert AllOf(p[3..]) == ["J", "-" + Print(j)];
    assert AllOf(p[2..]) == ["I" + Print(i)] + AllOf(p[3..]);
    assert AllOf(p[1..]) == ["Y" + ("-" + Print(y))] + AllOf(p[2..]);
  }
}
