/** `calculate_discount`: a discount applies only above 20 percent. */
module Discount {

  /** The price, or the price less `percent` percent of it when `percent`
      exceeds 20. Nothing clamps the result. */
  function CalculateDiscount(price: real, percent: real): (r: real)
    ensures percent <= 20.0 ==> r == price
    ensures percent > 20.0 ==> r == price - price * percent / 100.0
  {
    if percent > 20.0 then price * (1.0 - percent / 100.0) else price
  }

  /** A discount between 20 (exclusive) and 100 percent keeps a non-negative
      price between zero and the price, strictly below a positive price. */
  lemma DiscountInRange(price: real, percent: real)
    requires price >= 0.0 && 20.0 < percent <= 100.0
    ensures 0.0 <= CalculateDiscount(price, percent) <= price
    ensures price > 0.0 ==> CalculateDiscount(price, percent) < price
  {
    var keep := 1.0 - percent / 100.0;
    assert 0.0 <= keep < 1.0;
    assert CalculateDiscount(price, percent) == price * keep;
    assert price * keep <= price * 1.0;
  }

  /** Above 100 percent the result is negative for a positive price. */
  lemma DiscountOverHundred(price: real, percent: real)
    requires price > 0.0 && percent > 100.0
    ensures CalculateDiscount(price, percent) < 0.0
  {
    var keep := 1.0 - percent / 100.0;
    assert keep < 0.0;
    assert CalculateDiscount(price, percent) == price * keep;
  }

  /** The rule is not continuous at the threshold: 20 percent leaves the
      price as it is, anything just above it takes off more than a fifth. */
  lemma DiscountJumpsAtThreshold(price: real, percent: real)
    requires price > 0.0 && percent > 20.0
    ensures CalculateDiscount(price, 20.0) == price
    ensures CalculateDiscount(price, percent) < price * 0.8
  {
    assert price * percent / 100.0 > price * 0.2;
  }
}
