/** Integer facts the rounding rules of the pages rely on. */
module Arith {
  lemma MulLe(d: int, a: int, b: int)
    requires d >= 0 && a <= b
    ensures d * a <= d * b
  {
    assert d * b - d * a == d * (b - a);
  }

  /** Bounds on a quotient from bounds on the dividend. */
  lemma DivWithin(x: int, d: int, lo: int, hi: int)
    requires d > 0 && lo * d <= x < (hi + 1) * d
    ensures lo <= x / d <= hi
  {
    var q := x / d;
    assert x == d * q + x % d;
    if q < lo {
      MulLe(d, q + 1, lo);
      assert false;
    }
    if q > hi {
      MulLe(d, hi + 1, q);
      assert false;
    }
  }

  /** Division by a positive number keeps order. */
  lemma DivMonotone(x: int, y: int, d: int)
    requires d > 0 && x <= y
    ensures x / d <= y / d
  {
    var q := x / d;
    assert x == d * q + x % d;
    DivWithin(y, d, q, y / d);
  }
}
