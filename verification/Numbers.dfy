/** What a number in a line means: printing it and reading it back, digit by digit. */
module Numbers {
  import opened Text
  import opened Decimal
  import opened ArcFlatten

  function DigitChar(d: nat): char
    requires d < 10
  {
    "0123456789"[d]
  }

  /** Decimal digits, most significant first. */
  function Print(n: nat): string {
    if n < 10 then [DigitChar(n)] else Print(n / 10) + [DigitChar(n % 10)]
  }

  lemma {:induction false} PrintedDigits(n: nat)
    ensures Print(n) != "" && AllDigits(Print(n)) && NatValue(Print(n)) == n
  {
    if n < 10 {
      OneDigit(n);
    } else {
      PrintedDigits(n / 10);
      var p := Print(n);
      assert p[..|p| - 1] == Print(n / 10);
      OneDigit(n % 10);
    }
  }

  lemma OneDigit(d: nat)
    requires d < 10
    ensures IsDigit(DigitChar(d)) && DigitChar(d) as int - '0' as int == d
    ensures NatValue([DigitChar(d)]) == d
  {
    assert [DigitChar(d)][..0] == "";
  }

  // ---------- reading digits ----------

  lemma Shifted(w: string, d: char)
    requires AllDigits(w) && IsDigit(d)
    ensures AllDigits(w + [d]) && NatValue(w + [d]) == 10 * NatValue(w) + (d as int - '0' as int)
  {
    assert (w + [d])[..|w|] == w;
  }

  lemma {:induction false} LeadingDigit(d: char, f: string)
    requires AllDigits(f) && IsDigit(d)
    ensures AllDigits([d] + f)
    ensures NatValue([d] + f) as real == Scale10((d as int - '0' as int) as real, false, |f|) + NatValue(f) as real
  {
    if f == "" {
      assert [d] + f == [d] && [d][..0] == "";
    } else {
      var last := |f| - 1;
      assert ([d] + f)[..|f|] == [d] + f[..last];
      LeadingDigit(d, f[..last]);
    }
  }

  /** A word of digits alone. */
  lemma UnsignedWhole(w: string, rest: string)
    requires w != "" && AllDigits(w) && (rest == "" || (!IsDigit(rest[0]) && rest[0] != '.'))
    ensures Unsigned(w + rest) == Some(WithExponent(NatValue(w) as real, rest))
  {
    DigitRunSpans(w, rest);
    assert (w + rest)[..|w|] == w && (w + rest)[|w|..] == rest;
  }

  /** What `Unsigned` does once the digits on both sides of the point are known. */
  lemma UnsignedSplit(s: string, n: nat, m: nat)
    requires n < |s| && DigitRun(s) == n && s[n] == '.' && DigitRun(s[n + 1..]) == m && n + m > 0
    ensures AllDigits(s[..n]) && AllDigits(s[n + 1..][..m])
    ensures Unsigned(s) == Some(WithExponent(NatValue(s[..n]) as real
                                             + Scale10(NatValue(s[n + 1..][..m]) as real, true, m), s[n + 1..][m..]))
  {
    hide NatValue, Scale10, WithExponent, DigitRun;
    assert s[n..][1..] == s[n + 1..];
  }

  /** Digits, a point and digits, before something that is no digit. */
  lemma UnsignedPoint(w: string, f: string, rest: string)
    requires AllDigits(w) && AllDigits(f) && |w| + |f| > 0 && (rest == "" || !IsDigit(rest[0]))
    ensures Unsigned(w + ("." + (f + rest)))
            == Some(WithExponent(NatValue(w) as real + Scale10(NatValue(f) as real, true, |f|), rest))
  {
    hide NatValue, Scale10, WithExponent, DigitRun, Unsigned;
    var tail := "." + (f + rest);
    var s := w + tail;
    DigitRunSpans(w, tail);
    DigitRunSpans(f, rest);
    assert s[..|w|] == w && s[|w| + 1..] == f + rest;
    assert (f + rest)[..|f|] == f && (f + rest)[|f|..] == rest;
    UnsignedSplit(s, |w|, |f|);
  }

  // ---------- a number in a line ----------

  /** Digits, or digits around a decimal comma or point. */
  datatype Number = Whole(w: string) | Fraction(w: string, mark: char, f: string)

  predicate WellFormed(n: Number) {
    match n
    case Whole(w) => w != "" && AllDigits(w)
    case Fraction(w, mark, f) => AllDigits(w) && AllDigits(f) && |w| + |f| > 0 && (mark == ',' || mark == '.')
  }

  function Spelling(n: Number): string {
    match n
    case Whole(w) => w
    case Fraction(w, mark, f) => w + ([mark] + f)
  }

  function ValueOf(n: Number): real
    requires WellFormed(n)
  {
    match n
    case Whole(w) => NatValue(w) as real
    case Fraction(w, _, f) => NatValue(w) as real + Scale10(NatValue(f) as real, true, |f|)
  }

  predicate Sign(s: string) { s == "" || s == "+" || s == "-" }

  function Signed(sign: string, v: real): real { if sign == "-" then -v else v }

  /** What may follow a number. */
  predicate Ends(rest: string) {
    rest == "" || (!IsDigit(rest[0]) && rest[0] != '.' && rest[0] != ',')
  }

  lemma {:induction false} CommaFree(s: string)
    requires AllDigits(s)
    ensures CommaToPoint(s) == s
  {
  }

  lemma SignedStod(sign: string, s: string)
    requires Sign(sign) && s != "" && (IsDigit(s[0]) || s[0] == '.') && Unsigned(s).Some?
    ensures Stod(sign + s) == Some(Signed(sign, Unsigned(s).value))
  {
    hide Unsigned;
    StodUnsigned(s);
    if sign == "+" {
      assert SkipSpace("+" + s) == "+" + s && ("+" + s)[1..] == s;
    } else if sign == "" {
      assert sign + s == s;
    }
  }

  lemma PointForm(n: Number, rest: string)
    requires WellFormed(n)
    ensures
      match n
      case Whole(w) => CommaToPoint(Spelling(n) + rest) == w + CommaToPoint(rest)
      case Fraction(w, _, f) => CommaToPoint(Spelling(n) + rest) == w + ("." + (f + CommaToPoint(rest)))
  {
  }

  /** A number with a sign, before anything that does not go on with it. */
  lemma NumberReads(sign: string, n: Number, rest: string)
    requires Sign(sign) && WellFormed(n) && Ends(rest)
    ensures Stod(CommaToPoint(sign + (Spelling(n) + rest)))
            == Some(Signed(sign, WithExponent(ValueOf(n), CommaToPoint(rest))))
  {
    hide NatValue, Scale10, WithExponent, Unsigned, Stod;
    var t := CommaToPoint(rest);
    assert rest != "" ==> t[0] == rest[0];
    var s := CommaToPoint(Spelling(n) + rest);
    PointForm(n, rest);
    match n
    case Whole(w) =>
      UnsignedWhole(w, t);
      assert s[0] == w[0];
      SignedStod(sign, s);
      assert CommaToPoint(sign + (Spelling(n) + rest)) == sign + s;
    case Fraction(w, _, f) =>
      UnsignedPoint(w, f, t);
      assert s[0] == if w != "" then w[0] else '.';
      SignedStod(sign, s);
      assert CommaToPoint(sign + (Spelling(n) + rest)) == sign + s;
  }

  /** The value of a number that stands alone. */
  lemma AloneReads(sign: string, n: Number)
    requires Sign(sign) && WellFormed(n)
    ensures ParseValue(sign + Spelling(n)) == Signed(sign, ValueOf(n))
  {
    NumberReads(sign, n, "");
    assert Spelling(n) + "" == Spelling(n);
    NoExponent(ValueOf(n));
    hide Stod;
  }

  /** A printed number reads back, with either sign. */
  lemma PrintedReadsBack(n: nat)
    ensures ParseValue(Print(n)) == n as real
    ensures ParseValue("+" + Print(n)) == n as real
    ensures ParseValue("-" + Print(n)) == -(n as real)
  {
    hide ParseValue, NatValue;
    PrintedDigits(n);
    var w := Whole(Print(n));
    AloneReads("", w);
    AloneReads("+", w);
    AloneReads("-", w);
    assert "" + Print(n) == Print(n);
  }

  lemma {:induction false} ScaleAdds(a: real, b: real, negative: bool, k: nat)
    ensures Scale10(a + b, negative, k) == Scale10(a, negative, k) + Scale10(b, negative, k)
  {
    if k > 0 {
      ScaleAdds(a, b, negative, k - 1);
    }
  }

  /** Scaling by ten first or last is the same. */
  lemma {:induction false} ScaleInside(a: real, negative: bool, k: nat)
    ensures Scale10(10.0 * a, negative, k) == 10.0 * Scale10(a, negative, k)
  {
    if k > 0 {
      ScaleInside(a, negative, k - 1);
    }
  }

  lemma {:induction false} ScaleBack(a: real, k: nat)
    ensures Scale10(Scale10(a, false, k), true, k) == a
  {
    if k > 0 {
      ScaleBack(a, k - 1);
      ScaleInside(Scale10(a, false, k - 1), true, k - 1);
    }
  }

  /** The first digit after the comma counts a tenth. */
  lemma Shares(d: real, v: real, k: nat)
    ensures 10.0 * Scale10(Scale10(d, false, k) + v, true, k + 1) == d + Scale10(v, true, k)
  {
    ScaleAdds(Scale10(d, false, k), v, true, k);
    ScaleBack(d, k);
  }

  lemma FractionValue(w: string, d: char, f: string, mark: char)
    requires AllDigits(w) && IsDigit(d) && AllDigits(f) && (mark == ',' || mark == '.')
    ensures WellFormed(Fraction(w + [d], mark, f)) && WellFormed(Fraction(w, mark, [d] + f))
    ensures ValueOf(Fraction(w + [d], mark, f)) == 10.0 * ValueOf(Fraction(w, mark, [d] + f))
  {
    Shifted(w, d);
    LeadingDigit(d, f);
    Shares((d as int - '0' as int) as real, NatValue(f) as real, |f|);
    hide NatValue, Scale10;
  }

  /** Moving the comma one digit to the right is multiplying by ten. */
  lemma CommaShifts(w: string, d: char, f: string, mark: char)
    requires AllDigits(w) && IsDigit(d) && AllDigits(f) && (mark == ',' || mark == '.')
    ensures ParseValue((w + [d]) + ([mark] + f)) == 10.0 * ParseValue(w + ([mark] + ([d] + f)))
  {
    hide ParseValue, ValueOf, WellFormed;
    var n, m := Fraction(w + [d], mark, f), Fraction(w, mark, [d] + f);
    FractionValue(w, d, f, mark);
    AloneReads("", n);
    AloneReads("", m);
    assert "" + Spelling(n) == Spelling(n) && "" + Spelling(m) == Spelling(m);
  }

  /** A number with a decimal comma is its whole part and its fraction, with a sign the negative. */
  lemma DecimalComma(w: string, f: string)
    requires AllDigits(w) && AllDigits(f) && |w| + |f| > 0
    ensures ParseValue(w + ("," + f)) == NatValue(w) as real + Scale10(NatValue(f) as real, true, |f|)
    ensures ParseValue("-" + (w + ("," + f))) == -ParseValue(w + ("," + f))
    ensures ParseValue("+" + (w + ("," + f))) == ParseValue(w + ("," + f))
    ensures ParseValue(w + ("." + f)) == ParseValue(w + ("," + f))
  {
    hide ParseValue, NatValue, Scale10;
    var n, m := Fraction(w, ',', f), Fraction(w, '.', f);
    AloneReads("", n);
    AloneReads("-", n);
    AloneReads("+", n);
    AloneReads("", m);
    assert "" + Spelling(n) == Spelling(n) && "" + Spelling(m) == Spelling(m);
  }

  /** A number that ends in its comma is the whole number; a zero in front changes nothing. */
  lemma CommaAtEnd(w: string, mark: char)
    requires w != "" && AllDigits(w) && (mark == ',' || mark == '.')
    ensures ParseValue(w + [mark]) == ParseValue(w)
    ensures ParseValue("0" + w) == ParseValue(w)
  {
    hide ParseValue, NatValue, Scale10;
    var n := Fraction(w, mark, "");
    AloneReads("", Whole(w));
    AloneReads("", n);
    LeadingDigit('0', w);
    ZeroScales(|w|);
    AloneReads("", Whole("0" + w));
    assert Spelling(n) == w + [mark];
    assert "" + w == w && "" + Spelling(n) == Spelling(n) && "" + ("0" + w) == "0" + w;
    EmptyFraction();
  }

  lemma EmptyFraction()
    ensures NatValue("") == 0 && Scale10(0.0, true, 0) == 0.0
  {
  }

  lemma {:induction false} ZeroScales(k: nat)
    ensures Scale10(0.0, false, k) == 0.0
  {
    if k > 0 {
      ZeroScales(k - 1);
    }
  }

  // ---------- exponents and what follows ----------

  predicate IsE(c: char) { c == 'e' || c == 'E' }

  lemma ExponentReads(v: real, e: char, digits: string)
    requires IsE(e) && digits != "" && AllDigits(digits)
    ensures WithExponent(v, [e] + digits) == Scale10(v, false, NatValue(digits))
    ensures WithExponent(v, [e] + ("+" + digits)) == Scale10(v, false, NatValue(digits))
    ensures WithExponent(v, [e] + ("-" + digits)) == Scale10(v, true, NatValue(digits))
  {
    hide NatValue, Scale10, DigitRun;
    DigitRunSpans(digits, "");
    assert digits + "" == digits && digits[..|digits|] == digits;
    var s, p, m := [e] + digits, [e] + ("+" + digits), [e] + ("-" + digits);
    assert s[1..] == digits && p[2..] == digits && m[2..] == digits;
    assert s[1] == digits[0];
  }

  /** A number with a decimal exponent. */
  lemma WithPower(n: Number, e: char, digits: string)
    requires WellFormed(n) && IsE(e) && digits != "" && AllDigits(digits)
    ensures ParseValue(Spelling(n) + ([e] + digits)) == Scale10(ValueOf(n), false, NatValue(digits))
    ensures ParseValue(Spelling(n) + ([e] + ("+" + digits))) == Scale10(ValueOf(n), false, NatValue(digits))
    ensures ParseValue(Spelling(n) + ([e] + ("-" + digits))) == Scale10(ValueOf(n), true, NatValue(digits))
  {
    hide NatValue, Scale10, WithExponent, Stod, ValueOf, Spelling;
    ExponentReads(ValueOf(n), e, digits);
    CommaFree(digits);
    PowerReads(n, [e] + digits);
    PowerReads(n, [e] + ("+" + digits));
    PowerReads(n, [e] + ("-" + digits));
    assert CommaToPoint([e] + digits) == [e] + digits;
    assert CommaToPoint([e] + ("+" + digits)) == [e] + ("+" + digits);
    assert CommaToPoint([e] + ("-" + digits)) == [e] + ("-" + digits);
  }

  lemma PowerReads(n: Number, rest: string)
    requires WellFormed(n) && Ends(rest)
    ensures ParseValue(Spelling(n) + rest) == WithExponent(ValueOf(n), CommaToPoint(rest))
  {
    hide WithExponent, Stod, ValueOf, Spelling;
    NumberReads("", n, rest);
    assert "" + (Spelling(n) + rest) == Spelling(n) + rest;
  }

  /** One more in the exponent is ten times the value, with a minus sign a tenth; zero
      changes nothing. */
  lemma ExponentShifts(n: Number, e: char, k: nat)
    requires WellFormed(n) && IsE(e)
    ensures ParseValue(Spelling(n) + ([e] + "0")) == ParseValue(Spelling(n))
    ensures ParseValue(Spelling(n) + ([e] + Print(k + 1))) == 10.0 * ParseValue(Spelling(n) + ([e] + Print(k)))
    ensures ParseValue(Spelling(n) + ([e] + ("-" + Print(k))))
            == 10.0 * ParseValue(Spelling(n) + ([e] + ("-" + Print(k + 1))))
    ensures ParseValue(Spelling(n) + ([e] + ("-" + "0"))) == ParseValue(Spelling(n))
  {
    hide ParseValue, NatValue, ValueOf, Spelling;
    PrintedDigits(k);
    PrintedDigits(k + 1);
    PrintedDigits(0);
    assert Print(0) == "0";
    hide Print;
    WithPower(n, e, Print(k));
    WithPower(n, e, Print(k + 1));
    WithPower(n, e, "0");
    AloneReads("", n);
    assert "" + Spelling(n) == Spelling(n);
  }

  /** Text after a number that does not go on with it is ignored. */
  lemma RestIsIgnored(n: Number, rest: string)
    requires WellFormed(n) && Ends(rest) && (rest == "" || !IsE(rest[0]))
    ensures ParseValue(Spelling(n) + rest) == ParseValue(Spelling(n))
  {
    hide ParseValue, ValueOf, Spelling;
    PowerReads(n, rest);
    PowerReads(n, "");
    assert Spelling(n) + "" == Spelling(n);
  }

  /** Optional sign, then a digit, or a point and a digit. */
  predicate NumberAhead(r: string) {
    DigitAhead(if r != "" && (r[0] == '-' || r[0] == '+') then r[1..] else r)
  }

  predicate DigitAhead(t: string) {
    t != "" && (IsDigit(t[0]) || (t[0] == '.' && |t| > 1 && IsDigit(t[1])))
  }

  lemma UnsignedOrNone(t: string)
    ensures Unsigned(t).Some? <==> DigitAhead(t)
  {
    hide NatValue, Scale10, WithExponent;
  }

  /** There is a number exactly if, after blanks, one begins; otherwise the value is 0. */
  lemma NumberOrNone(s: string)
    ensures Stod(s).Some? <==> NumberAhead(SkipSpace(s))
    ensures Stod(CommaToPoint(s)).None? ==> ParseValue(s) == 0.0
  {
    var r := SkipSpace(s);
    UnsignedOrNone(r);
    if r != "" {
      UnsignedOrNone(r[1..]);
    }
    hide Unsigned, DigitAhead, SkipSpace;
  }
}
