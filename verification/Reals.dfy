/** Elementary facts about products and quotients of reals, each small enough for the solver. */
module Reals {

  lemma ProductNonNegative(a: real, b: real)
    requires 0.0 <= a && 0.0 <= b
    ensures 0.0 <= a * b
  {}

  lemma ProductMonotone(a: real, b: real, c: real)
    requires a <= b && 0.0 <= c
    ensures a * c <= b * c && c * a <= c * b
  {
    ProductNonNegative(b - a, c);
    assert (b - a) * c == b * c - a * c;
  }

  lemma ProductStrict(a: real, b: real, c: real)
    requires a < b && 0.0 < c
    ensures a * c < b * c
  {
    assert (b - a) * c > 0.0;
    assert (b - a) * c == b * c - a * c;
  }

  lemma SquareNonNegative(a: real)
    ensures 0.0 <= a * a
  {
    if a >= 0.0 { ProductNonNegative(a, a); } else { ProductNonNegative(-a, -a); assert (-a) * (-a) == a * a; }
  }

  lemma SquareOrder(a: real, b: real)
    requires 0.0 <= b && a * a <= b * b
    ensures a <= b
  {
    if a > b {
      ProductStrict(0.0, a - b, a + b);
      DifferenceOfSquares(a, b);
    }
  }

  lemma Associate(a: real, b: real, c: real)
    ensures a * (b * c) == a * b * c
  {}

  lemma DifferenceOfSquares(a: real, b: real)
    ensures (a - b) * (a + b) == a * a - b * b
  {}

  lemma DivideMonotone(a: real, b: real, c: real)
    requires a <= b && 0.0 < c
    ensures a / c <= b / c
  {}

  /** a / c is the number whose product with c is a. */
  lemma DivideTimes(a: real, c: real)
    requires c != 0.0
    ensures a / c * c == a
  {}

  lemma DivideSum(a: real, b: real, c: real)
    requires c != 0.0
    ensures a / c + b / c == (a + b) / c && a / c - b / c == (a - b) / c
  {}

  lemma DivideProduct(a: real, b: real, c: real)
    requires c != 0.0
    ensures a / c * b == a * b / c && b * a / c == b * (a / c)
  {}

  lemma DivideByProduct(a: real, b: real, c: real)
    requires b != 0.0 && c != 0.0
    ensures b * c != 0.0 && a / (b * c) == a / b / c
  {}

  lemma QuotientBounds(a: real, b: real, lo: real, hi: real)
    requires 0.0 < b && lo * b <= a <= hi * b
    ensures lo <= a / b <= hi
  {
    DivideMonotone(lo * b, a, b);
    DivideMonotone(a, hi * b, b);
  }
}
