/** Bounds of products of reals, one factor at a time. */
module RealProducts {
  lemma NonNegativeProduct(x: real, y: real)
    requires x >= 0.0 && y >= 0.0
    ensures x * y >= 0.0
  {
  }

  lemma Scaled(x: real, bound: real, factor: real, product: real)
    requires 0.0 <= factor && -bound <= x <= bound && product == factor * x
    ensures -(factor * bound) <= product <= factor * bound
  {
    NonNegativeProduct(factor, bound - x);
    NonNegativeProduct(factor, bound + x);
    assert factor * (bound - x) == factor * bound - product;
    assert factor * (bound + x) == factor * bound + product;
  }

  lemma SmallProduct(x: real, y: real, bound: real)
    requires 0.0 <= x <= 1.0 && 0.0 <= y <= bound
    ensures 0.0 <= x * y <= bound
  {
    NonNegativeProduct(x, y);
    NonNegativeProduct(1.0 - x, y);
  }

  lemma AtLeastAQuarter(x: real, y: real)
    requires x >= 0.5 && y >= 0.5
    ensures x * y >= 0.25
  {
    NonNegativeProduct(x - 0.5, y - 0.5);
    assert (x - 0.5) * (y - 0.5) == x * y - 0.5 * x - 0.5 * y + 0.25;
  }
}
