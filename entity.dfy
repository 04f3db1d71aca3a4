/** The two mutable records of the product package: a product's own data and
    the optional percentage discount that can apply to it. */
module Entity {
  import opened Values

  /** A product: SKU, display name, original price, tags in insertion order and
      a keyed bag of miscellaneous settings. */
  class ProductData {
    var sku: string
    var name: string
    var price: real
    var tags: seq<string>
    var settings: map<string, Value>

    /** Fills a new product through its own setters and adders. */
    constructor (sku: string, name: string, price: real, tags: seq<string>, settings: map<string, Value>)
      ensures this.sku == sku && this.name == name && this.price == price
      ensures this.tags == tags && this.settings == settings
    {
      this.tags := [];
      this.settings := map[];
      new;
      SetSKU(sku);
      SetName(name);
      SetPrice(price);
      AddTags(tags);
      SetSettings(settings);
    }

    function GetSKU(): string
      reads this
    {
      sku
    }

    method SetSKU(sku: string)
      modifies this
      ensures GetSKU() == sku
      ensures name == old(name) && price == old(price) && tags == old(tags) && settings == old(settings)
    {
      this.sku := sku;
    }

    function GetName(): string
      reads this
    {
      name
    }

    method SetName(name: string)
      modifies this
      ensures GetName() == name
      ensures sku == old(sku) && price == old(price) && tags == old(tags) && settings == old(settings)
    {
      this.name := name;
    }

    /** The original price, before any discount. */
    function GetPrice(): real
      reads this
    {
      price
    }

    method SetPrice(price: real)
      modifies this
      ensures GetPrice() == price
      ensures sku == old(sku) && name == old(name) && tags == old(tags) && settings == old(settings)
    {
      this.price := price;
    }

    function GetTags(): seq<string>
      reads this
    {
      tags
    }

    /** Appends one tag; tags already present stay, in their order. */
    method AddTag(tag: string)
      modifies this
      ensures GetTags() == old(GetTags()) + [tag]
      ensures sku == old(sku) && name == old(name) && price == old(price) && settings == old(settings)
    {
      tags := tags + [tag];
    }

    /** Appends every tag of `more`, in order. */
    method AddTags(more: seq<string>)
      modifies this
      ensures GetTags() == old(GetTags()) + more
      ensures sku == old(sku) && name == old(name) && price == old(price) && settings == old(settings)
    {
      tags := tags + more;
    }

    /** The setting stored under `key`, or null when there is none. */
    function GetSetting(key: string): Value
      reads this
    {
      Lookup(settings, key)
    }

    function GetSettings(): map<string, Value>
      reads this
    {
      settings
    }

    /** Stores one setting; settings under every other key are kept. */
    method SetSetting(key: string, value: Value)
      modifies this
      ensures GetSetting(key) == value
      ensures settings == old(settings)[key := value]
      ensures sku == old(sku) && name == old(name) && price == old(price) && tags == old(tags)
    {
      settings := settings[key := value];
    }

    /** Stores every setting of `more`, replacing those under the same keys. */
    method SetSettings(more: map<string, Value>)
      modifies this
      ensures forall key :: key in more ==> GetSetting(key) == more[key]
      ensures settings == old(settings) + more
      ensures sku == old(sku) && name == old(name) && price == old(price) && tags == old(tags)
    {
      settings := settings + more;
    }
  }

  /** A percentage discount ("25.0" is 25% off), whether the discounted price is
      rounded down to a whole number, and settings that override the product's. */
  class ProductDiscount {
    var discount: real
    var roundDown: bool
    var overrides: map<string, Value>

    /** Fills a new discount through its own setters. */
    constructor (discount: real, roundDown: bool, overrides: map<string, Value>)
      ensures this.discount == discount && this.roundDown == roundDown && this.overrides == overrides
    {
      this.overrides := map[];
      new;
      SetDiscount(discount);
      SetRoundDown(roundDown);
      SetOverrideSettings(overrides);
    }

    function GetDiscount(): real
      reads this
    {
      discount
    }

    method SetDiscount(discount: real)
      modifies this
      ensures GetDiscount() == discount
      ensures roundDown == old(roundDown) && overrides == old(overrides)
    {
      this.discount := discount;
    }

    function DoRoundDown(): bool
      reads this
    {
      roundDown
    }

    method SetRoundDown(roundDown: bool)
      modifies this
      ensures DoRoundDown() == roundDown
      ensures discount == old(discount) && overrides == old(overrides)
    {
      this.roundDown := roundDown;
    }

    /** The override stored under `key`, or null when there is none. */
    function GetOverrideSetting(key: string): Value
      reads this
    {
      Lookup(overrides, key)
    }

    function GetOverrideSettings(): map<string, Value>
      reads this
    {
      overrides
    }

    /** Stores one override; overrides under every other key are kept. */
    method SetOverrideSetting(key: string, value: Value)
      modifies this
      ensures GetOverrideSetting(key) == value
      ensures overrides == old(overrides)[key := value]
      ensures discount == old(discount) && roundDown == old(roundDown)
    {
      overrides := overrides[key := value];
    }

    /** Stores every override of `more`, replacing those under the same keys. */
    method SetOverrideSettings(more: map<string, Value>)
      modifies this
      ensures forall key :: key in more ==> GetOverrideSetting(key) == more[key]
      ensures overrides == old(overrides) + more
      ensures discount == old(discount) && roundDown == old(roundDown)
    {
      overrides := overrides + more;
    }
  }
}
