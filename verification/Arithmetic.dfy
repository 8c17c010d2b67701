/** Quotients by name: enough to evaluate a division without asking the solver for one. */
module Arithmetic {

  lemma Scale(a: int, b: int, c: int)
    requires c >= 0
    ensures a <= b ==> a * c <= b * c
  {
  }

  lemma Quotient(a: int, b: int, q: int)
    requires b > 0 && q * b <= a < (q + 1) * b
    ensures a / b == q
  {
    var k := a / b;
    Scale(k + 1, q, b);
    Scale(q + 1, k, b);
  }
}
