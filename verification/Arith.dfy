// Facts about products and quotients.
module Arith {
  lemma MulLe(a: nat, b: nat, c: nat)
    requires a <= b
    ensures a * c <= b * c
  {}

  lemma ScaleInterval(lo: int, x: int, hi: int, w: nat)
    requires lo <= x <= hi
    ensures lo * w <= x * w <= hi * w
  {}

  lemma DivideUnique(n: nat, d: nat, q: nat, r: nat)
    requires r < d && n == q * d + r
    ensures n / d == q
  {
    var p := n / d;
    assert n == p * d + n % d;
    assert (p - q) * d == p * d - q * d;
    if p > q {
      ScaleInterval(1, p - q, p - q, d);
    } else if p < q {
      ScaleInterval(p - q, p - q, -1, d);
    }
  }

  lemma MultipleHasNoRest(q: nat, d: nat)
    requires d > 0
    ensures q * d % d == 0
  {
    var n := q * d;
    DivideUnique(n, d, q, 0);
    assert n == n / d * d + n % d;
  }
}
