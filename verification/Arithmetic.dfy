/** Minimum, maximum, products and quotients of integers. */
module Arithmetic {

  function Min(a: int, b: int): int {
    if a < b then a else b
  }

  function Max(a: int, b: int): int {
    if a > b then a else b
  }

  lemma MulMonotone(a: int, b: int, c: int)
    requires a <= b && c >= 0
    ensures a * c <= b * c
  {
    assert (b - a) * c >= 0;
    assert b * c == a * c + (b - a) * c;
  }

  lemma DivFloor(x: int, d: int)
    requires d > 0
    ensures (x / d) * d <= x < (x / d + 1) * d
  {
    var q := x / d;
    assert x == q * d + x % d;
    assert (q + 1) * d == q * d + d;
  }

  lemma DivAtLeast(x: int, d: int, q: int)
    requires d > 0 && q * d <= x
    ensures q <= x / d
  {
    DivFloor(x, d);
    if x / d + 1 <= q {
      MulMonotone(x / d + 1, q, d);
      assert false;
    }
  }

  lemma DivBelow(x: int, d: int, q: int)
    requires d > 0 && x < q * d
    ensures x / d < q
  {
    DivFloor(x, d);
    if q <= x / d {
      MulMonotone(q, x / d, d);
      assert false;
    }
  }

  lemma DivProduct(x: int, d: int)
    requires d > 0
    ensures x * d / d == x
  {
    DivAtLeast(x * d, d, x);
    assert (x + 1) * d == x * d + d;
    DivBelow(x * d, d, x + 1);
  }

  lemma DivMonotone(a: int, b: int, d: int)
    requires d > 0 && a <= b
    ensures a / d <= b / d
  {
    DivFloor(a, d);
    DivAtLeast(b, d, a / d);
  }
}
