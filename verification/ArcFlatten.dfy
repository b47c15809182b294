/** Small arcs become lines: the token rewriter that the data sent to the PLC goes
    through. I/J are centre-format offsets (section 3.5.3.2 of NISTIR 6556), so the
    radius is hypot(I, J). */
module ArcFlatten {
  import opened Text
  import opened Decimal
  import opened Reals

  // ---------- the decision ----------

  predicate ShouldFlatten(radius: real, threshold: real) {
    threshold > 0.0 && radius > 0.0 && radius < threshold
  }

  /** The same decision without the square root. */
  predicate SmallArc(i: real, j: real, threshold: real) {
    threshold > 0.0 && 0.0 < Square(i) + Square(j) < Square(threshold)
  }

  /** Whatever nonnegative root `hypot` returns, the decision is `SmallArc`. */
  lemma SmallArcIsRadiusTest(radius: real, i: real, j: real, threshold: real)
    requires radius >= 0.0 && Square(radius) == Square(i) + Square(j)
    ensures ShouldFlatten(radius, threshold) <==> SmallArc(i, j, threshold)
  {
    SquareSign(radius);
    if threshold > 0.0 {
      SquareOrder(radius, threshold);
    }
  }

  /** Passing either of two thresholds is passing the larger one. */
  lemma SmallArcOfMax(i: real, j: real, a: real, b: real)
    ensures SmallArc(i, j, Max(a, b)) <==> SmallArc(i, j, a) || SmallArc(i, j, b)
  {
  }

  // ---------- words ----------

  function ParseValue(s: string): real {
    match Stod(CommaToPoint(s))
    case Some(v) => v
    case None => 0.0
  }

  method ParseValueInPlace(s: string) returns (v: real)
    ensures v == ParseValue(s)
  {
    var t := s;
    for k := 0 to |t|
      invariant |t| == |s|
      invariant forall i :: 0 <= i < k ==> t[i] == CommaToPoint(s)[i]
      invariant forall i :: k <= i < |s| ==> t[i] == s[i]
    {
      if t[k] == ',' {
        t := t[k := '.'];
      }
    }
    assert t == CommaToPoint(s);
    v := match Stod(t) case Some(x) => x case None => 0.0;
  }

  function StripZeros(num: string): (r: string)
    ensures |r| <= |num|
    ensures r == "" || r[0] != '0'
  {
    if num != "" && num[0] == '0' then StripZeros(num[1..]) else num
  }

  /** Normalised G number of a word: "2" for G02; "" for anything that is no G word. */
  function GNumber(token: string): string {
    if |token| < 2 || (token[0] != 'G' && token[0] != 'g') then ""
    else if StripZeros(token[1..]) == "" then "0"
    else StripZeros(token[1..])
  }

  method GNumberLoop(token: string) returns (r: string)
    ensures r == GNumber(token)
  {
    if |token| < 2 || (token[0] != 'G' && token[0] != 'g') {
      return "";
    }
    var num := token[1..];
    var i := 0;
    while i < |num| && num[i] == '0'
      invariant 0 <= i <= |num|
      invariant StripZeros(num[i..]) == StripZeros(num)
    {
      assert num[i..][1..] == num[i + 1..];
      i := i + 1;
    }
    var n := num[i..];
    return if n == "" then "0" else n;
  }

  function Zeros(n: nat): string { seq(n, _ => '0') }

  /** A word has the G number `d` exactly when it is G or g, zeros, and `d`. */
  lemma {:induction false} GNumberMeaning(token: string, d: string)
    requires d != "" && d[0] != '0'
    ensures GNumber(token) == d <==>
            exists n: nat :: n < |token| && (token == "G" + Zeros(n) + d || token == "g" + Zeros(n) + d)
  {
    hide StripZeros;
    if GNumber(token) == d {
      var n := StripZerosMeaning(token[1..]);
      assert token == [token[0]] + token[1..];
    }
    forall n: nat | n < |token| && (token == "G" + Zeros(n) + d || token == "g" + Zeros(n) + d)
      ensures GNumber(token) == d
    {
      assert token[1..] == Zeros(n) + d;
      StripZerosOfPadded(n, d);
    }
  }

  lemma {:induction false} StripZerosMeaning(num: string) returns (n: nat)
    ensures num == Zeros(n) + StripZeros(num)
  {
    if num != "" && num[0] == '0' {
      var m := StripZerosMeaning(num[1..]);
      n := m + 1;
      assert num == [num[0]] + num[1..];
      assert Zeros(n) == ['0'] + Zeros(m);
    } else {
      n := 0;
    }
  }

  lemma {:induction false} StripZerosOfPadded(n: nat, d: string)
    requires d != "" && d[0] != '0'
    ensures StripZeros(Zeros(n) + d) == d
  {
    if n == 0 {
      assert Zeros(n) + d == d;
    } else {
      assert (Zeros(n) + d)[1..] == Zeros(n - 1) + d;
      StripZerosOfPadded(n - 1, d);
    }
  }

  predicate IsArcWord(t: string) {
    GNumber(t) == "2" || GNumber(t) == "3"
  }

  predicate IsIWord(t: string) { t != "" && (t[0] == 'I' || t[0] == 'i') }

  predicate IsJWord(t: string) { t != "" && (t[0] == 'J' || t[0] == 'j') }

  predicate IsOffsetWord(t: string) { IsIWord(t) || IsJWord(t) }

  /** The value of the first word: what follows its letter, or the next word. */
  function FirstValue(ts: seq<string>): real
    requires ts != [] && ts[0] != ""
  {
    ParseValue(if |ts[0]| == 1 && |ts| > 1 then ts[1] else ts[0][1..])
  }

  // ---------- reading a line ----------

  /** Index of the last arc word, or -1. */
  function LastArc(ts: seq<string>): (g: int)
    ensures -1 <= g < |ts|
  {
    if ts == [] then -1
    else
      var g := LastArc(ts[1..]);
      if g >= 0 then g + 1 else if IsArcWord(ts[0]) then 0 else -1
  }

  lemma {:induction false} LastArcIsLast(ts: seq<string>)
    ensures LastArc(ts) >= 0 ==> IsArcWord(ts[LastArc(ts)])
    ensures forall k :: LastArc(ts) < k < |ts| ==> !IsArcWord(ts[k])
  {
    if ts != [] {
      LastArcIsLast(ts[1..]);
      assert forall k :: 1 <= k < |ts| ==> ts[k] == ts[1..][k - 1];
    }
  }

  /** Value of the last I word, `d` if there is none. */
  function LastI(ts: seq<string>, d: real): real {
    if ts == [] then d
    else LastI(ts[1..], if IsIWord(ts[0]) then FirstValue(ts) else d)
  }

  function LastJ(ts: seq<string>, d: real): real {
    if ts == [] then d
    else LastJ(ts[1..], if IsJWord(ts[0]) then FirstValue(ts) else d)
  }

  /** Whether the rewriter fires on these words. */
  predicate Fires(ts: seq<string>, threshold: real) {
    LastArc(ts) >= 0 && SmallArc(LastI(ts, 0.0), LastJ(ts, 0.0), threshold)
  }

  // ---------- rewriting a line ----------

  /** The G word at index `g` becomes G01, I/J words go, a lone I or J takes the
      following word with it, everything else stays. */
  function Rewrite(ts: seq<string>, g: int): seq<string> {
    if ts == [] then []
    else if g == 0 then ["G01"] + Rewrite(ts[1..], -1)
    else if IsOffsetWord(ts[0]) then
      if |ts[0]| == 1 && |ts| > 1 then Rewrite(ts[2..], g - 2) else Rewrite(ts[1..], g - 1)
    else [ts[0]] + Rewrite(ts[1..], g - 1)
  }

  function Rewritten(ts: seq<string>): seq<string> {
    Rewrite(ts, LastArc(ts))
  }

  function FlattenLine(line: string, threshold: real): string {
    if Fires(Tokens(line), threshold) then Join(Rewritten(Tokens(line))) else line
  }

  lemma GNumberExcludesOffset(t: string)
    ensures GNumber(t) != "" ==> !IsOffsetWord(t)
  {
  }

  lemma ArcIsNoOffset(t: string)
    ensures IsArcWord(t) ==> !IsOffsetWord(t)
  {
  }

  /** First loop: find the G word and collect I and J. */
  method Scan(tokens: seq<string>) returns (gIdx: int, isArc: bool, i: real, j: real)
    requires AllWords(tokens)
    ensures gIdx == LastArc(tokens) && isArc == (gIdx >= 0)
    ensures i == LastI(tokens, 0.0) && j == LastJ(tokens, 0.0)
  {
    gIdx, isArc, i, j := -1, false, 0.0, 0.0;
    for k := 0 to |tokens|
      invariant isArc == (gIdx >= 0) && -1 <= gIdx < k
      invariant LastArc(tokens) == if LastArc(tokens[k..]) >= 0 then k + LastArc(tokens[k..]) else gIdx
      invariant LastI(tokens, 0.0) == LastI(tokens[k..], i)
      invariant LastJ(tokens, 0.0) == LastJ(tokens[k..], j)
    {
      var t := tokens[k];
      assert IsWord(t);
      assert tokens[k..][1..] == tokens[k + 1..];
      var gnum := GNumberLoop(t);
      GNumberExcludesOffset(t);
      if gnum != "" {
        if gnum == "2" || gnum == "3" {
          gIdx, isArc := k, true;
        }
      } else if IsIWord(t) || IsJWord(t) {
        var v := t[1..];
        if v == "" && k + 1 < |tokens| {
          v := tokens[k + 1];
        }
        var value := ParseValueInPlace(v);
        if IsIWord(t) {
          i := value;
        } else {
          j := value;
        }
      }
    }
  }

  lemma RewriteStep(ts: seq<string>, g: int)
    requires ts != [] && !(IsOffsetWord(ts[0]) && |ts[0]| == 1 && |ts| > 1 && g != 0)
    ensures Rewrite(ts, g) == (if g == 0 then ["G01"] else if IsOffsetWord(ts[0]) then [] else [ts[0]])
                              + Rewrite(ts[1..], g - 1)
  {
  }

  lemma RewriteSkip(ts: seq<string>, g: int)
    requires |ts| > 1 && IsOffsetWord(ts[0]) && |ts[0]| == 1 && g != 0
    ensures Rewrite(ts, g) == Rewrite(ts[2..], g - 2)
  {
  }

  /** Second loop: build the output string. */
  method Emit(tokens: seq<string>, gIdx: int) returns (out: string)
    requires AllWords(tokens)
    ensures out == Join(Rewrite(tokens, gIdx))
  {
    hide Rewrite, Join, IsWord;
    out := "";
    ghost var done: seq<string> := [];
    JoinNothing();
    var k := 0;
    assert tokens[0..] == tokens;
    while k < |tokens|
      invariant 0 <= k <= |tokens|
      invariant AllWords(done) && out == Join(done)
      invariant done + Rewrite(tokens[k..], gIdx - k) == Rewrite(tokens, gIdx)
      decreases |tokens| - k
    {
      var t := tokens[k];
      ghost var rest := tokens[k..];
      assert IsWord(t) && rest[0] == t && rest[1..] == tokens[k + 1..];
      if k == gIdx {
        RewriteStep(rest, 0);
        AppendWord(done, "G01");
        out := if out != "" then out + " " + "G01" else "G01";
        done := done + ["G01"];
      } else if IsOffsetWord(t) {
        if |t| == 1 && k + 1 < |tokens| {
          RewriteSkip(rest, gIdx - k);
          assert rest[2..] == tokens[k + 2..];
          k := k + 1;
        } else {
          RewriteStep(rest, gIdx - k);
        }
      } else {
        RewriteStep(rest, gIdx - k);
        AppendWord(done, t);
        out := if out != "" then out + " " + t else t;
        done := done + [t];
      }
      k := k + 1;
    }
    RewriteNothing(gIdx - k);
    assert tokens[k..] == [] && done + [] == done;
  }

  lemma RewriteNothing(g: int)
    ensures Rewrite([], g) == []
  {
  }

  lemma JoinNothing()
    ensures Join([]) == ""
    ensures IsWord("G01")
  {
  }

  lemma AppendWord(done: seq<string>, t: string)
    requires AllWords(done) && IsWord(t)
    ensures AllWords(done + [t])
    ensures Join(done + [t]) == if Join(done) != "" then Join(done) + " " + t else t
  {
    JoinAppend(done, t);
    if done != [] {
      assert IsWord(done[0]);
      JoinNonempty(done);
    }
  }

  method FlattenArcLine(line: string, threshold: real) returns (out: string)
    ensures out == FlattenLine(line, threshold)
  {
    if threshold <= 0.0 {
      return line;
    }
    var tokens := Tokenize(line);
    if tokens == [] {
      return line;
    }
    TokensAreWords(line);
    var gIdx, isArc, i, j := Scan(tokens);
    if !isArc {
      return line;
    }
    if !SmallArc(i, j, threshold) {
      return line;
    }
    out := Emit(tokens, gIdx);
  }

  // ---------- absorption ----------

  /** What the rewriter emits: words, none of them an I or J word. */
  lemma {:induction false} RewriteEmitsNoOffsets(ts: seq<string>, g: int)
    requires AllWords(ts)
    ensures AllWords(Rewrite(ts, g))
    ensures forall k :: 0 <= k < |Rewrite(ts, g)| ==> !IsOffsetWord(Rewrite(ts, g)[k])
    decreases |ts|
  {
    if ts == [] {
    } else if g == 0 {
      RewriteEmitsNoOffsets(ts[1..], -1);
    } else {
      assert IsWord(ts[0]);
      RewriteEmitsNoOffsets(ts[1..], g - 1);
      if |ts| > 1 {
        RewriteEmitsNoOffsets(ts[2..], g - 2);
      }
    }
  }

  lemma {:induction false} NoOffsetsNoValues(ts: seq<string>, d: real)
    requires forall k :: 0 <= k < |ts| ==> !IsOffsetWord(ts[k])
    ensures LastI(ts, d) == d && LastJ(ts, d) == d
  {
    if ts != [] {
      NoOffsetsNoValues(ts[1..], d);
    }
  }

  /** The rewritten line reads back as the emitted words, and never fires again. */
  lemma RewrittenIsStable(ts: seq<string>, threshold: real)
    requires AllWords(ts)
    ensures Tokens(Join(Rewritten(ts))) == Rewritten(ts)
    ensures !Fires(Rewritten(ts), threshold)
  {
    RewriteEmitsNoOffsets(ts, LastArc(ts));
    TokensOfJoin(Rewritten(ts));
    NoOffsetsNoValues(Rewritten(ts), 0.0);
  }

  /** Flattening twice is flattening once with the larger threshold, on every line. */
  lemma Absorption(line: string, a: real, b: real)
    ensures FlattenLine(FlattenLine(line, a), b) == FlattenLine(line, Max(a, b))
  {
    var ts := Tokens(line);
    SmallArcOfMax(LastI(ts, 0.0), LastJ(ts, 0.0), a, b);
    TokensAreWords(line);
    RewrittenIsStable(ts, b);
  }

  /** Hence repeating a threshold changes nothing and the order does not matter. */
  lemma IdempotentAndOrderFree(line: string, a: real, b: real)
    ensures FlattenLine(FlattenLine(line, a), a) == FlattenLine(line, a)
    ensures FlattenLine(FlattenLine(line, a), b) == FlattenLine(FlattenLine(line, b), a)
  {
    Absorption(line, a, a);
    Absorption(line, a, b);
    Absorption(line, b, a);
  }

  // ---------- what survives ----------

  predicate Detached(ts: seq<string>, k: nat)
    requires k < |ts|
  {
    IsOffsetWord(ts[k]) && |ts[k]| == 1
  }

  /** A word that goes with the lone I or J before it, whatever the word is. */
  predicate Taken(ts: seq<string>, k: nat)
    requires k <= |ts|
  {
    k > 0 && Detached(ts, k - 1) && !Taken(ts, k - 1)
  }

  /** Neither an I/J word nor taken by one. */
  predicate Survives(ts: seq<string>, k: nat)
    requires k < |ts|
  {
    !IsOffsetWord(ts[k]) && !Taken(ts, k)
  }

  /** The words from `k` on that survive, word `g` as G01. */
  function Survivors(ts: seq<string>, k: nat, g: int): seq<string>
    requires k <= |ts|
    decreases |ts| - k
  {
    if k == |ts| then []
    else (if !Survives(ts, k) then [] else if k == g then ["G01"] else [ts[k]]) + Survivors(ts, k + 1, g)
  }

  /** Exactly the I/J words and the words they take go; every other word but the G word
      stays verbatim, in order. */
  lemma {:induction false} RewriteKeepsTheRest(ts: seq<string>, k: nat, g: int)
    requires AllWords(ts) && k <= |ts| && !Taken(ts, k)
    requires g < |ts| && (g >= 0 ==> IsArcWord(ts[g]))
    ensures Rewrite(ts[k..], g - k) == Survivors(ts, k, g)
    decreases |ts| - k
  {
    hide GNumber, IsArcWord, Rewrite, IsOffsetWord, Survivors;
    SurvivorsStep(ts, k, g);
    if k < |ts| {
      var rest := ts[k..];
      assert rest[0] == ts[k] && rest[1..] == ts[k + 1..];
      ArcIsNoOffset(ts[k]);
      if Detached(ts, k) && k + 1 < |ts| {
        RewriteSkip(rest, g - k);
        assert rest[2..] == ts[k + 2..];
        RewriteKeepsTheRest(ts, k + 2, g);
        SurvivorsStep(ts, k + 1, g);
      } else {
        if Detached(ts, k) {
          assert ts[k + 1..] == [];
          RewriteNothing(g - k - 1);
          SurvivorsStep(ts, k + 1, g);
        } else {
          RewriteKeepsTheRest(ts, k + 1, g);
        }
        RewriteStep(rest, g - k);
      }
    } else {
      assert ts[k..] == [];
      RewriteNothing(g - k);
    }
  }

  lemma SurvivorsStep(ts: seq<string>, k: nat, g: int)
    requires k <= |ts|
    ensures k == |ts| ==> Survivors(ts, k, g) == []
    ensures k < |ts| ==>
              Survivors(ts, k, g)
              == (if !Survives(ts, k) then [] else if k == g then ["G01"] else [ts[k]]) + Survivors(ts, k + 1, g)
  {
  }

  /** The words of a rewritten line. */
  function Kept(ts: seq<string>): seq<string> { Survivors(ts, 0, LastArc(ts)) }

  lemma RewrittenIsKept(ts: seq<string>)
    requires AllWords(ts)
    ensures Rewritten(ts) == Kept(ts)
  {
    LastArcIsLast(ts);
    assert ts[0..] == ts;
    RewriteKeepsTheRest(ts, 0, LastArc(ts));
  }

  /** The surviving words of a line that fires. */
  lemma FlattenedWords(line: string, threshold: real)
    requires Fires(Tokens(line), threshold)
    ensures Tokens(FlattenLine(line, threshold)) == Kept(Tokens(line))
  {
    var ts := Tokens(line);
    TokensAreWords(line);
    RewrittenIsStable(ts, threshold);
    RewrittenIsKept(ts);
  }
}
