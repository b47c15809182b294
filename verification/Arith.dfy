/** Products of natural numbers. */
module Arith {

  lemma ProductOrder(a: nat, b: nat, c: nat)
    requires a <= b
    ensures a * c <= b * c
  {
  }

  lemma ProductStep(a: nat, b: nat)
    ensures (a + 1) * b == a * b + b
  {
  }
}
