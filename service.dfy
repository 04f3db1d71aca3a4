/** The pricing and setting-resolution rules. The service holds no state: each
    operation is a function of the product and of its discount, if any (a null
    discount is "no discount"). The arithmetic is bcmath's: the percentage is
    divided by 100 at scale 4, the price is multiplied by that fraction at
    scale 2, the product is subtracted from the price at scale 2, and PHP's
    floor follows when the discount rounds down. */
module Service {
  import opened Values
  import opened Decimal
  import opened Entity

  // ---- The arithmetic on plain numbers ----

  /** bcdiv(percentage, 100, 4). */
  function PercentAsFraction(pct: real): (q: real)
    ensures AtScale(q, 4)
    ensures 0.0 <= pct <= 100.0 ==> 0.0 <= q <= 1.0
    ensures 0.0 <= pct ==> q <= pct / 100.0 < q + 1.0 / 10000.0
    ensures pct <= 0.0 ==> q - 1.0 / 10000.0 < pct / 100.0 <= q
  {
    assert Pow10(4) == 10000;
    TruncTo(pct / 100.0, 4)
  }

  /** bcmul(price, fraction, 2): the dollars a fraction of the price comes to,
      the exact product cut toward zero to whole cents. */
  function DollarsOff(price: real, fraction: real): (d: real)
    ensures AtScale(d, 2)
    ensures 0.0 <= price * fraction ==> d <= price * fraction < d + 0.01
    ensures price * fraction <= 0.0 ==> d - 0.01 < price * fraction <= d
  {
    assert Pow10(2) == 100;
    TruncTo(price * fraction, 2)
  }

  /** bcsub(price, dollars off, 2), floored when rounding down: without
      round-down, the price minus the dollars off cut toward zero to whole
      cents; with it, a whole number. */
  function DiscountedPrice(price: real, pct: real, roundDown: bool): (p: real)
    ensures !roundDown ==> AtScale(p, 2)
    ensures !roundDown && 0.0 <= price - DollarsOff(price, PercentAsFraction(pct)) ==>
              p <= price - DollarsOff(price, PercentAsFraction(pct)) < p + 0.01
    ensures !roundDown && price - DollarsOff(price, PercentAsFraction(pct)) <= 0.0 ==>
              p - 0.01 < price - DollarsOff(price, PercentAsFraction(pct)) <= p
    ensures roundDown ==> p.Floor as real == p
  {
    assert Pow10(2) == 100;
    var cut := TruncTo(price - DollarsOff(price, PercentAsFraction(pct)), 2);
    if roundDown then Floor(cut) else cut
  }

  /** For a price in whole cents and no round-down, the discounted price plus
      the dollars off gives back the price exactly: the price minus the dollars
      off is already in whole cents, so the last truncation loses nothing. */
  lemma PriceAndDollarsOffAddUp(price: real, pct: real)
    requires AtScale(price, 2)
    ensures DiscountedPrice(price, pct, false) + DollarsOff(price, PercentAsFraction(pct)) == price
  {
    SubAtScale(price, DollarsOff(price, PercentAsFraction(pct)), 2);
    TruncExact(price - DollarsOff(price, PercentAsFraction(pct)), 2);
  }

  /** For a non-negative price and a percentage between 0 and 100, the amount
      taken off lies between 0 and the price, and so does the discounted price,
      rounded down or not. */
  lemma DiscountedPriceBounds(price: real, pct: real, roundDown: bool)
    requires 0.0 <= price && 0.0 <= pct <= 100.0
    ensures 0.0 <= DollarsOff(price, PercentAsFraction(pct)) <= price
    ensures 0.0 <= DiscountedPrice(price, pct, roundDown) <= price
  {
    DollarsOffBounds(price, PercentAsFraction(pct));
    TruncWithin(price - DollarsOff(price, PercentAsFraction(pct)), price);
  }

  /** A fraction between 0 and 1 of a non-negative price, in dollars, lies
      between 0 and the price. */
  lemma DollarsOffBounds(price: real, fraction: real)
    requires 0.0 <= price && 0.0 <= fraction <= 1.0
    ensures 0.0 <= DollarsOff(price, fraction) <= price
  {
    FractionBounds(price, fraction);
    TruncWithin(price * fraction, price);
  }

  /** A fraction between 0 and 1 of a non-negative amount lies between 0 and it. */
  lemma FractionBounds(price: real, q: real)
    requires 0.0 <= price && 0.0 <= q <= 1.0
    ensures 0.0 <= price * q <= price
  {
    assert price - price * q == price * (1.0 - q);
  }

  /** Truncation to cents, and flooring, keep a non-negative value under any
      bound it was under. */
  lemma TruncWithin(x: real, bound: real)
    requires 0.0 <= x <= bound
    ensures 0.0 <= TruncTo(x, 2) <= bound
    ensures 0.0 <= Floor(TruncTo(x, 2)) <= bound
  {
  }

  /** With round-down the price is the truncated price floored: a whole number
      not above it and less than one unit below it. */
  lemma RoundDownBelowCut(price: real, pct: real)
    ensures var cut := DiscountedPrice(price, pct, false);
            var p := DiscountedPrice(price, pct, true);
            p.Floor as real == p && p <= cut < p + 1.0
  {
  }

  /** The package's own example: 10% off 50.00 takes 5.00 off and leaves
      45.00, which round-down leaves as it is. */
  lemma TenPercentOffFifty()
    ensures PercentAsFraction(10.0) == 0.1
    ensures DollarsOff(50.0, PercentAsFraction(10.0)) == 5.0
    ensures DiscountedPrice(50.0, 10.0, false) == 45.0
    ensures DiscountedPrice(50.0, 10.0, true) == 45.0
  {
    assert Pow10(4) == 10000 && Pow10(2) == 100;
    assert TruncTo(0.1, 4) == 0.1;
    assert TruncTo(5.0, 2) == 5.0;
    assert TruncTo(45.0, 2) == 45.0;
  }

  /** bcmath truncates: 0.5% of 149.99 is 0.74995, which becomes 0.74 (not the
      rounded 0.75); 149.99 - 0.74 = 149.25, floored to 149 with round-down. */
  lemma TruncatesRatherThanRounds()
    ensures DollarsOff(149.99, PercentAsFraction(0.5)) == 0.74
    ensures DiscountedPrice(149.99, 0.5, false) == 149.25
    ensures DiscountedPrice(149.99, 0.5, true) == 149.0
  {
    assert Pow10(4) == 10000 && Pow10(2) == 100;
    assert PercentAsFraction(0.5) == 0.005;
    assert TruncTo(0.74995, 2) == 0.74;
    assert TruncTo(149.25, 2) == 149.25;
  }

  /** The two-stage truncation is observable: 12.345% of 10000.00 is exactly
      1234.50, but the fraction is first cut to 0.1234, so 1234.00 comes off. */
  lemma TwoStageTruncation()
    ensures DollarsOff(10000.0, PercentAsFraction(12.345)) == 1234.0
    ensures TruncTo(10000.0 * 12.345 / 100.0, 2) == 1234.5
  {
    assert Pow10(4) == 10000 && Pow10(2) == 100;
    assert PercentAsFraction(12.345) == 0.1234;
    assert TruncTo(1234.0, 2) == 1234.0;
    assert TruncTo(1234.5, 2) == 1234.5;
  }

  /** Percentages are not clamped: 150% off 10.00 takes 15.00 off and leaves
      a negative price of -5.00. */
  lemma OverOneHundredPercent()
    ensures DollarsOff(10.0, PercentAsFraction(150.0)) == 15.0
    ensures DiscountedPrice(10.0, 150.0, false) == -5.0
  {
    assert Pow10(4) == 10000 && Pow10(2) == 100;
    assert PercentAsFraction(150.0) == 1.5;
    assert TruncTo(15.0, 2) == 15.0;
    assert TruncTo(-5.0, 2) == -5.0;
  }

  // ---- The service operations over the records ----

  /** The value of a setting with overrides considered: a discount's override
      wins only when it is non-empty in PHP's sense; otherwise (no discount, no
      override, or an override that is null, false, 0, "" or "0") the product's
      own setting is used. */
  function ProductSetting(key: string, data: ProductData, discount: ProductDiscount?): (v: Value)
    reads data, discount
    ensures discount != null && !IsEmpty(discount.GetOverrideSetting(key)) ==> v == discount.GetOverrideSetting(key)
    ensures discount == null || IsEmpty(discount.GetOverrideSetting(key)) ==> v == data.GetSetting(key)
    ensures !IsEmpty(v) <==>
              (discount != null && !IsEmpty(discount.GetOverrideSetting(key))) || !IsEmpty(data.GetSetting(key))
  {
    if discount != null && !IsEmpty(discount.GetOverrideSetting(key)) then
      discount.GetOverrideSetting(key)
    else
      data.GetSetting(key)
  }

  /** The settings a product presents once a discount's overrides are applied:
      its own settings, replaced key by key by every non-empty override. */
  function EffectiveSettings(data: ProductData, discount: ProductDiscount?): (m: map<string, Value>)
    reads data, discount
    ensures data.settings.Keys <= m.Keys
  {
    if discount == null then data.settings
    else data.settings + map key | key in discount.overrides && !IsEmpty(discount.overrides[key]) :: discount.overrides[key]
  }

  /** Resolving one setting agrees with reading it from the merged settings. */
  lemma ProductSettingIsEffectiveSetting(key: string, data: ProductData, discount: ProductDiscount?)
    ensures ProductSetting(key, data, discount) == Lookup(EffectiveSettings(data, discount), key)
  {
  }

  /** Whether a discount applies. */
  function HasProductDiscount(discount: ProductDiscount?): (b: bool)
    ensures b <==> discount != null
  {
    discount != null
  }

  /** The discount percentage ("25.0" for 25% off), 0 without a discount. */
  function ProductDiscountAmount(discount: ProductDiscount?): (a: real)
    reads discount
    ensures discount == null ==> a == 0.0
    ensures discount != null ==> a == discount.GetDiscount()
  {
    if discount != null then discount.GetDiscount() else 0.0
  }

  /** The percentage as a fraction. Without a discount
      `getProductDiscountAsDecimal` returns 0 directly, which is what dividing the zero percentage gives, so both
      branches agree with one formula. */
  function ProductDiscountAsDecimal(discount: ProductDiscount?): (q: real)
    reads discount
    ensures q == PercentAsFraction(ProductDiscountAmount(discount))
  {
    if discount != null then
      PercentAsFraction(ProductDiscountAmount(discount))
    else
      0.0
  }

  /** The discount in dollars; 0.00 without a discount. */
  function ProductDiscountInDollars(data: ProductData, discount: ProductDiscount?): (d: real)
    reads data, discount
    ensures discount == null ==> d == 0.0
    ensures discount != null ==> d == DollarsOff(data.GetPrice(), PercentAsFraction(discount.GetDiscount()))
  {
    if discount != null then
      DollarsOff(data.GetPrice(), ProductDiscountAsDecimal(discount))
    else
      0.0
  }

  /** The price once a discount is applied. */
  function CalculatePriceWithDiscount(data: ProductData, discount: ProductDiscount): (p: real)
    reads data, discount
    ensures p == DiscountedPrice(data.GetPrice(), discount.GetDiscount(), discount.DoRoundDown())
  {
    var cut := TruncTo(data.GetPrice() - ProductDiscountInDollars(data, discount), 2);
    if discount.DoRoundDown() then Floor(cut) else cut
  }

  /** The current price: the original price without a discount, otherwise the
      discounted price. */
  function CurrentProductPrice(data: ProductData, discount: ProductDiscount?): (p: real)
    reads data, discount
    ensures discount == null ==> p == data.GetPrice()
    ensures discount != null ==>
              p == DiscountedPrice(data.GetPrice(), discount.GetDiscount(), discount.DoRoundDown())
  {
    if discount != null then CalculatePriceWithDiscount(data, discount) else data.GetPrice()
  }

  /** Without a discount every query falls back to the product itself: the
      current price is the original price, nothing is taken off, and every
      setting is the product's own. */
  lemma NoDiscountMeansOriginal(data: ProductData)
    ensures !HasProductDiscount(null)
    ensures ProductDiscountAmount(null) == 0.0
    ensures ProductDiscountInDollars(data, null) == 0.0
    ensures CurrentProductPrice(data, null) == data.GetPrice()
    ensures forall key :: ProductSetting(key, data, null) == data.GetSetting(key)
  {
  }

  /** For a price in whole cents and a discount that does not round down, the
      current price plus the discount in dollars is the original price. */
  lemma CurrentPriceAndDollarsAddUp(data: ProductData, discount: ProductDiscount)
    requires AtScale(data.GetPrice(), 2) && !discount.DoRoundDown()
    ensures CurrentProductPrice(data, discount) + ProductDiscountInDollars(data, discount) == data.GetPrice()
  {
    PriceAndDollarsOffAddUp(data.GetPrice(), discount.GetDiscount());
  }

  /** For a non-negative price and a percentage between 0 and 100, the
      discount in dollars and the current price lie between 0 and the price. */
  lemma DiscountBounds(data: ProductData, discount: ProductDiscount)
    requires 0.0 <= data.GetPrice()
    requires 0.0 <= discount.GetDiscount() <= 100.0
    ensures 0.0 <= ProductDiscountInDollars(data, discount) <= data.GetPrice()
    ensures 0.0 <= CurrentProductPrice(data, discount) <= data.GetPrice()
  {
    DiscountedPriceBounds(data.GetPrice(), discount.GetDiscount(), discount.DoRoundDown());
  }
}
