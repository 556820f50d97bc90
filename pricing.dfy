/**
 * Pizza sizes and the size coefficient applied to a pizza's base amount.
 * The source multiplies by the floats 1, 1.25 and 1.5 and stores the
 * product in an integer column, which truncates; for the non-negative
 * amounts here truncation is the floor of the exact product, so the
 * coefficients are kept as the exact fractions 1/1, 5/4 and 3/2.
 */
module Pricing {

  datatype Size = L | XL | XXL

  /** The price every pizza starts from before its flavours are added. */
  const BasePrice: nat := 10

  function CoefficientNumerator(size: Size): nat {
    match size
    case L => 1
    case XL => 5
    case XXL => 3
  }

  function CoefficientDenominator(size: Size): (d: nat)
    ensures d > 0
  {
    match size
    case L => 1
    case XL => 4
    case XXL => 2
  }

  /** The integer stored for `amount * coefficient(size)`: the floor of the exact product. */
  function SizedPrice(size: Size, amount: nat): (price: nat)
    ensures price * CoefficientDenominator(size) <= amount * CoefficientNumerator(size)
    ensures amount * CoefficientNumerator(size) < (price + 1) * CoefficientDenominator(size)
  {
    amount * CoefficientNumerator(size) / CoefficientDenominator(size)
  }

  /** No coefficient is below one, and they grow with the size. */
  lemma SizedPriceOrdered(amount: nat)
    ensures amount == SizedPrice(L, amount)
    ensures SizedPrice(L, amount) <= SizedPrice(XL, amount) <= SizedPrice(XXL, amount)
  {
  }

  /** A larger amount never gives a smaller price. */
  lemma SizedPriceMonotonic(size: Size, a: nat, b: nat)
    requires a <= b
    ensures SizedPrice(size, a) <= SizedPrice(size, b)
  {
  }
}
