/** Signs of products and bounds of quotients, over the reals. */
module Arithmetic {

  lemma SignOfProduct(m: real, t: real)
    requires m > 0.0
    ensures m * t >= 0.0 <==> t >= 0.0
    ensures m * t == 0.0 <==> t == 0.0
  {
  }

  lemma QuotientOrder(a: real, b: real, c: real)
    requires b > 0.0
    ensures a / b <= c <==> a <= c * b
    ensures a / b >= c <==> a >= c * b
  {
    var q := a / b;
    assert q * b == a;
    assert b * (c - q) == c * b - a;
    SignOfProduct(b, c - q);
  }
}
