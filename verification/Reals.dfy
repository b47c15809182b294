/** Products of reals behind a name, so that proofs use the laws below and not the
    solver's own treatment of powers. */
module Reals {

  function Times(a: real, b: real): real { a * b }

  function Square(a: real): real { Times(a, a) }

  function Max(a: real, b: real): real { if a < b then b else a }

  function Min(a: real, b: real): real { if b < a then b else a }

  lemma TimesSign(a: real, b: real)
    requires a > 0.0
    ensures Times(a, b) > 0.0 <==> b > 0.0
    ensures Times(a, b) < 0.0 <==> b < 0.0
  {
  }

  lemma TimesOrder(a: real, b: real, c: real)
    requires c > 0.0
    ensures Times(a, c) < Times(b, c) <==> a < b
    ensures Times(a, c) <= Times(b, c) <==> a <= b
  {
  }

  lemma SquareSign(a: real)
    ensures Square(a) >= 0.0
    ensures Square(a) > 0.0 <==> a != 0.0
  {
    if a > 0.0 {
      TimesSign(a, a);
    } else if a < 0.0 {
      TimesSign(-a, -a);
      assert Times(-a, -a) == Times(a, a);
    }
  }

  lemma SquareOrder(a: real, b: real)
    requires a >= 0.0 && b >= 0.0
    ensures a < b <==> Square(a) < Square(b)
  {
    if a + b > 0.0 {
      TimesSign(a + b, b - a);
      assert Times(a + b, b - a) == Square(b) - Square(a);
    }
  }

  lemma SquareOfProduct(a: real, s: real)
    ensures Square(a * s) == Times(Square(a), Square(s))
  {
  }
}
