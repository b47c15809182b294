/** `std::stod` on decimal literals: optional blanks, sign, digits, point, digits
    and exponent; the longest such prefix counts, and no digit at all is an error. */
module Decimal {
  import opened Text

  predicate IsDigit(c: char) { '0' <= c <= '9' }

  function DigitRun(s: string): (n: nat)
    ensures n <= |s|
    ensures forall i :: 0 <= i < n ==> IsDigit(s[i])
  {
    if s != "" && IsDigit(s[0]) then 1 + DigitRun(s[1..]) else 0
  }

  function NatValue(digits: string): nat
    requires forall i :: 0 <= i < |digits| ==> IsDigit(digits[i])
  {
    if digits == "" then 0
    else
      var last := |digits| - 1;
      assert IsDigit(digits[last]);
      10 * NatValue(digits[..last]) + (digits[last] as int - '0' as int)
  }

  /** Times or divided by the `n`-th power of ten. */
  function Scale10(v: real, negative: bool, n: nat): real {
    if n == 0 then v
    else if negative then Scale10(v, negative, n - 1) / 10.0
    else 10.0 * Scale10(v, negative, n - 1)
  }

  /** The exponent part at the start of `s`, if it has digits. */
  function WithExponent(v: real, s: string): real {
    if s == "" || (s[0] != 'e' && s[0] != 'E') then v
    else
      var signed := |s| > 1 && (s[1] == '+' || s[1] == '-');
      var body := if signed then s[2..] else s[1..];
      var n := DigitRun(body);
      if n == 0 then v
      else Scale10(v, signed && s[1] == '-', NatValue(body[..n]))
  }

  function Unsigned(s: string): Option<real> {
    var n := DigitRun(s);
    var whole := NatValue(s[..n]);
    var rest := s[n..];
    if rest != "" && rest[0] == '.' then
      var frac := rest[1..];
      var m := DigitRun(frac);
      if n + m == 0 then None
      else Some(WithExponent(whole as real + Scale10(NatValue(frac[..m]) as real, true, m), frac[m..]))
    else if n == 0 then None
    else Some(WithExponent(whole as real, rest))
  }

  function Stod(s: string): Option<real> {
    var r := SkipSpace(s);
    if r != "" && r[0] == '-' then
      match Unsigned(r[1..])
      case Some(v) => Some(-v)
      case None => None
    else if r != "" && r[0] == '+' then Unsigned(r[1..])
    else Unsigned(r)
  }

  predicate AllDigits(s: string) { forall i :: 0 <= i < |s| ==> IsDigit(s[i]) }

  lemma {:induction false} DigitRunSpans(w: string, rest: string)
    requires AllDigits(w) && (rest == "" || !IsDigit(rest[0]))
    ensures DigitRun(w + rest) == |w|
  {
    if w == "" {
      assert w + rest == rest;
    } else {
      assert (w + rest)[1..] == w[1..] + rest;
      DigitRunSpans(w[1..], rest);
    }
  }

  lemma NoExponent(v: real)
    ensures WithExponent(v, "") == v
  {
  }

  lemma StodUnsigned(s: string)
    requires s != "" && !IsSpace(s[0]) && s[0] != '-' && s[0] != '+'
    ensures Stod(s) == Unsigned(s)
    ensures Unsigned(s).Some? ==> Stod("-" + s) == Some(-Unsigned(s).value)
  {
    hide Unsigned;
    assert SkipSpace(s) == s;
    var t := "-" + s;
    assert SkipSpace(t) == t && t[1..] == s;
  }

  /** Decimal comma to decimal point. */
  function CommaToPoint(s: string): (r: string)
    ensures |r| == |s|
    ensures forall i :: 0 <= i < |s| ==> r[i] == if s[i] == ',' then '.' else s[i]
  {
    seq(|s|, i requires 0 <= i < |s| => if s[i] == ',' then '.' else s[i])
  }
}
