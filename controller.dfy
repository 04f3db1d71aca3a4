/** The per-product facade: one product, zero or one discount, and read-only
    queries that hand both to the pricing and resolution service. */
module Controller {
  import opened Values
  import opened Entity
  import Service

  class ProductController {
    /** Bound once, in the constructor; nothing rebinds them afterwards. */
    const data: ProductData
    const discount: ProductDiscount?

    constructor (data: ProductData, discount: ProductDiscount?)
      ensures this.data == data && this.discount == discount
    {
      this.data := data;
      this.discount := discount;
    }

    function ProductSKU(): (s: string)
      reads data
      ensures s == data.GetSKU()
    {
      data.GetSKU()
    }

    function ProductName(): (n: string)
      reads data
      ensures n == data.GetName()
    {
      data.GetName()
    }

    /** The price before any discount. */
    function OriginalProductPrice(): (p: real)
      reads data
      ensures p == data.GetPrice()
    {
      data.GetPrice()
    }

    /** The price with the bound discount, if any, applied. */
    function CurrentProductPrice(): (p: real)
      reads data, discount
      ensures discount == null ==> p == OriginalProductPrice()
      ensures discount != null ==>
                p == Service.DiscountedPrice(data.GetPrice(), discount.GetDiscount(), discount.DoRoundDown())
    {
      Service.CurrentProductPrice(data, discount)
    }

    /** A setting, with the bound discount's non-empty overrides taking precedence. */
    function ProductSetting(key: string): (v: Value)
      reads data, discount
      ensures v == Lookup(Service.EffectiveSettings(data, discount), key)
    {
      Service.ProductSettingIsEffectiveSetting(key, data, discount);
      Service.ProductSetting(key, data, discount)
    }

    function HasProductDiscount(): (b: bool)
      ensures b <==> discount != null
    {
      Service.HasProductDiscount(discount)
    }

    /** The discount percentage, 0 without a discount. */
    function ProductDiscountAmount(): (a: real)
      reads discount
      ensures discount == null ==> a == 0.0
      ensures discount != null ==> a == discount.GetDiscount()
    {
      Service.ProductDiscountAmount(discount)
    }

    /** The dollars the bound discount takes off, 0.00 without a discount. */
    function ProductDiscountInDollars(): (d: real)
      reads data, discount
      ensures discount == null ==> d == 0.0
      ensures discount != null ==>
                d == Service.DollarsOff(data.GetPrice(), Service.PercentAsFraction(discount.GetDiscount()))
    {
      Service.ProductDiscountInDollars(data, discount)
    }

    /** Whatever the bound records hold, for a non-negative price and a
        percentage between 0 and 100 the current price and the discount in
        dollars lie between 0 and the original price. */
    lemma PriceWithinOriginal()
      requires 0.0 <= OriginalProductPrice()
      requires 0.0 <= ProductDiscountAmount() <= 100.0
      ensures 0.0 <= ProductDiscountInDollars() <= OriginalProductPrice()
      ensures 0.0 <= CurrentProductPrice() <= OriginalProductPrice()
    {
      if discount != null {
        Service.DiscountBounds(data, discount);
      }
    }

    /** The package's test product: SKU "test" at 50.00, 10% off without
        rounding, product setting original_setting = "original" and discount
        override overridden_setting = "overridden". */
    lemma TestProduct()
      requires data.sku == "test" && data.price == 50.0
      requires data.settings == map["original_setting" := Str("original")]
      requires discount != null && discount.discount == 10.0 && !discount.roundDown
      requires discount.overrides == map["overridden_setting" := Str("overridden")]
      ensures ProductSKU() == "test"
      ensures OriginalProductPrice() == 50.0
      ensures CurrentProductPrice() == 45.0
      ensures ProductDiscountAmount() == 10.0
      ensures ProductDiscountInDollars() == 5.0
      ensures HasProductDiscount()
      ensures ProductSetting("original_setting") == Str("original")
      ensures ProductSetting("overridden_setting") == Str("overridden")
    {
      Service.TenPercentOffFifty();
    }
  }
}
