/** Whitespace, words and lines, as `std::istringstream >> token` and the
    line readers of the project see them. */
module Text {

  datatype Option<+T> = None | Some(value: T)

  /** `isspace` of the "C" locale: blank, tab, LF, VT, FF and CR. */
  predicate IsSpace(c: char) {
    c == ' ' || 9 <= c as int <= 13
  }

  lemma SpacesOfC(c: char)
    ensures IsSpace(c) <==> c == ' ' || c == '\t' || c == '\n' || c as int == 11 || c as int == 12 || c == '\r'
  {
  }

  /** A token: nonempty and free of whitespace. */
  predicate IsWord(t: string) {
    t != "" && forall i :: 0 <= i < |t| ==> !IsSpace(t[i])
  }

  predicate AllWords(ts: seq<string>) {
    forall i :: 0 <= i < |ts| ==> IsWord(ts[i])
  }

  function SkipSpace(s: string): (r: string)
    ensures |r| <= |s|
    ensures r == "" || !IsSpace(r[0])
  {
    if s != "" && IsSpace(s[0]) then SkipSpace(s[1..]) else s
  }

  /** Length of the word at the start. */
  function WordLength(s: string): (n: nat)
    ensures n <= |s|
  {
    if s != "" && !IsSpace(s[0]) then 1 + WordLength(s[1..]) else 0
  }

  function Tokens(s: string): seq<string>
    decreases |s|
  {
    var r := SkipSpace(s);
    if r == "" then []
    else
      var n := WordLength(r);
      [r[..n]] + Tokens(r[n..])
  }

  lemma {:induction false} WordLengthSpans(s: string)
    ensures forall i :: 0 <= i < WordLength(s) ==> !IsSpace(s[i])
    ensures WordLength(s) == |s| || IsSpace(s[WordLength(s)])
  {
    if s != "" && !IsSpace(s[0]) {
      WordLengthSpans(s[1..]);
      assert forall i :: 1 <= i < |s| ==> s[i] == s[1..][i - 1];
    }
  }

  lemma {:induction false} TokensAreWords(s: string)
    ensures AllWords(Tokens(s))
    decreases |s|
  {
    var r := SkipSpace(s);
    if r != "" {
      WordLengthSpans(r);
      TokensAreWords(r[WordLength(r)..]);
    }
  }

  /** One `ss >> tok`: blanks are skipped from `pos` on, then a word is taken. */
  method Extract(line: string, pos: nat) returns (start: nat, end: nat)
    requires pos <= |line|
    ensures pos <= start <= end <= |line|
    ensures SkipSpace(line[pos..]) == line[start..]
    ensures end - start == WordLength(line[start..])
  {
    start := pos;
    while start < |line| && IsSpace(line[start])
      invariant pos <= start <= |line|
      invariant SkipSpace(line[start..]) == SkipSpace(line[pos..])
    {
      assert line[start..][1..] == line[start + 1..];
      start := start + 1;
    }
    end := start;
    while end < |line| && !IsSpace(line[end])
      invariant start <= end <= |line|
      invariant WordLength(line[start..]) == end - start + WordLength(line[end..])
    {
      assert line[end..][1..] == line[end + 1..];
      end := end + 1;
    }
  }

  /** The loop `while (ss >> tok) tokens.push_back(tok)`. */
  method Tokenize(line: string) returns (tokens: seq<string>)
    ensures tokens == Tokens(line)
  {
    hide SkipSpace, WordLength;
    tokens := [];
    var start, end := Extract(line, 0);
    assert line[0..] == line;
    ghost var pos := 0;
    while start < end
      invariant pos <= start <= end <= |line|
      invariant SkipSpace(line[pos..]) == line[start..]
      invariant end - start == WordLength(line[start..])
      invariant tokens + Tokens(line[pos..]) == Tokens(line)
      decreases |line| - pos
    {
      assert line[start..][..end - start] == line[start..end];
      assert line[start..][end - start..] == line[end..];
      TokensStep(line[pos..]);
      tokens := tokens + [line[start..end]];
      pos := end;
      start, end := Extract(line, end);
    }
    TokensStep(line[pos..]);
  }

  lemma TokensStep(s: string)
    ensures
      var r := SkipSpace(s);
      if WordLength(r) == 0 then Tokens(s) == [] else Tokens(s) == [r[..WordLength(r)]] + Tokens(r[WordLength(r)..])
  {
  }

  /** Words separated by single blanks. */
  function Join(ts: seq<string>): string {
    if ts == [] then ""
    else if |ts| == 1 then ts[0]
    else ts[0] + " " + Join(ts[1..])
  }

  /** Appending one word, the way an output string grows. */
  lemma {:induction false} JoinAppend(ts: seq<string>, t: string)
    ensures Join(ts + [t]) == if ts == [] then t else Join(ts) + " " + t
  {
    if ts == [] {
    } else {
      assert (ts + [t])[1..] == ts[1..] + [t];
      JoinAppend(ts[1..], t);
    }
  }

  lemma JoinNonempty(ts: seq<string>)
    requires ts != [] && ts[0] != ""
    ensures Join(ts) != "" && Join(ts)[0] == ts[0][0]
  {
  }

  lemma {:induction false} WordLengthOfPrefix(w: string, rest: string)
    requires forall i :: 0 <= i < |w| ==> !IsSpace(w[i])
    requires rest == "" || IsSpace(rest[0])
    ensures WordLength(w + rest) == |w|
  {
    if w == "" {
      assert w + rest == rest;
    } else {
      assert (w + rest)[1..] == w[1..] + rest;
      WordLengthOfPrefix(w[1..], rest);
    }
  }

  /** Re-reading joined words gives the words back. */
  lemma {:induction false} TokensOfJoin(ts: seq<string>)
    requires AllWords(ts)
    ensures Tokens(Join(ts)) == ts
  {
    if ts == [] {
    } else {
      var rest := if |ts| == 1 then "" else " " + Join(ts[1..]);
      assert Join(ts) == ts[0] + rest;
      WordLengthOfPrefix(ts[0], rest);
      assert (ts[0] + rest)[..|ts[0]|] == ts[0];
      assert (ts[0] + rest)[|ts[0]|..] == rest;
      if |ts| > 1 {
        assert rest[1..] == Join(ts[1..]);
        assert Tokens(rest) == Tokens(Join(ts[1..]));
        TokensOfJoin(ts[1..]);
      }
    }
  }

  /** The characters the line readers strip from the end of a line. */
  predicate IsLineEnd(c: char) {
    c == '\r' || c == '\n' || c == ' ' || c == '\t'
  }

  function TrimRight(s: string): (r: string)
    ensures r <= s
    ensures r == "" || !IsLineEnd(r[|r| - 1])
  {
    if s != "" && IsLineEnd(s[|s| - 1]) then TrimRight(s[..|s| - 1]) else s
  }

  /** A line of whitespace only. */
  predicate Blank(s: string) {
    forall i :: 0 <= i < |s| ==> IsSpace(s[i])
  }

  lemma {:induction false} TrimKeepsBlank(s: string)
    ensures Blank(TrimRight(s)) <==> Blank(s)
  {
    if s != "" && IsLineEnd(s[|s| - 1]) {
      TrimKeepsBlank(s[..|s| - 1]);
      assert IsSpace(s[|s| - 1]);
      assert Blank(s) <==> Blank(s[..|s| - 1]) by {
        assert forall i :: 0 <= i < |s| - 1 ==> s[..|s| - 1][i] == s[i];
      }
    }
  }

  /** Joined words end in a character that is not whitespace. */
  lemma {:induction false} JoinEndsInWord(ts: seq<string>)
    requires AllWords(ts) && ts != []
    ensures Join(ts) != "" && !IsSpace(Join(ts)[|Join(ts)| - 1])
  {
    assert IsWord(ts[0]);
    if |ts| > 1 {
      JoinEndsInWord(ts[1..]);
    }
  }

  lemma {:induction false} BlankHasNoTokens(s: string)
    ensures Blank(s) <==> Tokens(s) == []
  {
    if s != "" && IsSpace(s[0]) {
      assert Blank(s) <==> Blank(s[1..]) by {
        assert forall i :: 0 <= i < |s| - 1 ==> s[1..][i] == s[i + 1];
        assert forall i :: 1 <= i < |s| ==> s[i] == s[1..][i - 1];
      }
      BlankHasNoTokens(s[1..]);
    }
  }
}
