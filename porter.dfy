/** The product registry: builds product facades from the product configuration
    and keeps each one, keyed by the SKU it was requested under, for re-use. */
module Porter {
  import opened Values
  import opened Entity
  import opened Controller

  /** A product's entry in the configuration. */
  datatype ConfigEntry = ConfigEntry(
    sku: string,
    name: string,
    price: real,
    tags: seq<string>,
    settings: map<string, Value>,
    sale: Value)

  /** The loaded configuration: the entry for a SKU, or None where the
      configuration has nothing (or only an empty value) under it. */
  type ConfigSource = string -> Option<ConfigEntry>

  datatype Option<T> = None | Some(value: T)

  /** A result, or the exception `ProductPorter` throws, by its message. */
  datatype Outcome<T> = Ok(value: T) | Fail(message: string)

  const DefaultConfigFile: string := "store.product.php"
  const NotFoundMessage: string := "Product data could not be found in the config."

  class ProductPorter {
    /** Loads the configuration held in a named file; None when loading
        throws (a missing or unreadable file). */
    const loadConfig: string -> Option<ConfigSource>
    /** The sale lookup: for a sale named in a configuration entry and the
        product's tags, the discount that sale gives those tags, if any. */
    const findSaleDiscount: (Value, seq<string>) -> ProductDiscount?

    var configFile: string
    var config: ConfigSource
    /** Controllers built so far, by the SKU they were requested under. */
    var savedProducts: map<string, ProductController>

    /** A registry over the default configuration file, which loads. When it
        does not load no registry comes into being: see `Create`. */
    constructor (loadConfig: string -> Option<ConfigSource>, findSaleDiscount: (Value, seq<string>) -> ProductDiscount?)
      requires loadConfig(DefaultConfigFile).Some?
      ensures this.loadConfig == loadConfig && this.findSaleDiscount == findSaleDiscount
      ensures configFile == DefaultConfigFile && config == loadConfig(DefaultConfigFile).value
      ensures savedProducts == map[]
    {
      this.loadConfig := loadConfig;
      this.findSaleDiscount := findSaleDiscount;
      configFile := DefaultConfigFile;
      config := loadConfig(DefaultConfigFile).value;
      savedProducts := map[];
    }

    /** Constructing a registry: None when loading the default configuration
        file throws, otherwise a new registry over it with nothing saved. */
    static method Create(loadConfig: string -> Option<ConfigSource>, findSaleDiscount: (Value, seq<string>) -> ProductDiscount?)
      returns (r: Option<ProductPorter>)
      ensures loadConfig(DefaultConfigFile).None? <==> r.None?
      ensures r.Some? ==>
                && fresh(r.value)
                && r.value.loadConfig == loadConfig && r.value.findSaleDiscount == findSaleDiscount
                && r.value.configFile == DefaultConfigFile
                && r.value.config == loadConfig(DefaultConfigFile).value
                && r.value.savedProducts == map[]
    {
      if loadConfig(DefaultConfigFile).None? {
        return None;
      }
      var porter := new ProductPorter(loadConfig, findSaleDiscount);
      r := Some(porter);
    }

    /** Switches to another configuration file; products already saved stay.
        The file name is replaced first, so when loading the new file throws
        (`loaded` is false) the registry names the new file but keeps the old
        configuration. */
    method SetConfigFile(file: string) returns (loaded: bool)
      modifies this
      ensures configFile == file
      ensures loaded <==> loadConfig(file).Some?
      ensures loaded ==> config == loadConfig(file).value
      ensures !loaded ==> config == old(config)
      ensures savedProducts == old(savedProducts)
    {
      configFile := file;
      var next := loadConfig(file);
      if next.None? {
        return false;
      }
      config := next.value;
      loaded := true;
    }

    /** The discount for a configured product: none when its entry names no
        sale (an empty sale value), otherwise whatever the sale gives its tags.
        Fails when the configuration has no entry for the SKU. */
    function FindProductDiscountFromConfig(sku: string): (r: Outcome<ProductDiscount?>)
      reads this
      ensures r.Fail? <==> config(sku).None?
      ensures r.Fail? ==> r.message == NotFoundMessage
      ensures config(sku).Some? && IsEmpty(config(sku).value.sale) ==> r == Ok(null)
      ensures config(sku).Some? && !IsEmpty(config(sku).value.sale) ==>
                r == Ok(findSaleDiscount(config(sku).value.sale, config(sku).value.tags))
    {
      match config(sku)
      case None => Fail(NotFoundMessage)
      case Some(entry) =>
        if !IsEmpty(entry.sale) then Ok(findSaleDiscount(entry.sale, entry.tags)) else Ok(null)
    }

    /** Builds a new controller from the configuration entry for `sku`: fresh
        product data from the entry's fields and the discount found for it. */
    method NewProductControllerFromConfig(sku: string) returns (r: Outcome<ProductController>)
      ensures config(sku).None? ==> r == Fail(NotFoundMessage)
      ensures config(sku).Some? ==> r.Ok? && BuiltFrom(r.value, sku) && fresh(r.value) && fresh(r.value.data)
    {
      var found := config(sku);
      if found.None? {
        return Fail(NotFoundMessage);
      }
      var entry := found.value;
      var data := new ProductData(entry.sku, entry.name, entry.price, entry.tags, entry.settings);
      var discount := FindProductDiscountFromConfig(sku);
      var controller := new ProductController(data, discount.value);
      r := Ok(controller);
    }

    /** The controller carries the configured entry's data and discount. */
    ghost predicate BuiltFrom(c: ProductController, sku: string)
      reads this, c, c.data
    {
      match config(sku)
      case None => false
      case Some(entry) =>
        && c.data.sku == entry.sku && c.data.name == entry.name && c.data.price == entry.price
        && c.data.tags == entry.tags && c.data.settings == entry.settings
        && FindProductDiscountFromConfig(sku) == Ok(c.discount)
    }

    /** The saved controller for `sku` when there is one, untouched and without
        consulting the configuration; otherwise a controller newly built from
        the configuration, saved under `sku`. When the configuration has no
        entry for `sku` the call fails and nothing is saved. */
    method GetSavedProductController(sku: string) returns (r: Outcome<ProductController>)
      modifies this`savedProducts
      ensures sku in old(savedProducts) ==> r == Ok(old(savedProducts)[sku]) && savedProducts == old(savedProducts)
      ensures sku !in old(savedProducts) && config(sku).None? ==>
                r == Fail(NotFoundMessage) && savedProducts == old(savedProducts)
      ensures sku !in old(savedProducts) && config(sku).Some? ==>
                && r.Ok? && fresh(r.value) && BuiltFrom(r.value, sku)
                && savedProducts == old(savedProducts)[sku := r.value]
      ensures forall k :: k in old(savedProducts) ==> k in savedProducts && savedProducts[k] == old(savedProducts)[k]
      ensures r.Ok? ==> sku in savedProducts && savedProducts[sku] == r.value
    {
      if sku in savedProducts {
        return Ok(savedProducts[sku]);
      }
      r := NewProductControllerFromConfig(sku);
      if r.Ok? {
        savedProducts := savedProducts[sku := r.value];
      }
    }

    /** A new discount holding exactly the given percentage, rounding flag and
        overrides; the registry itself is not changed. */
    method NewProductDiscount(discount: real, roundDown: bool, overrides: map<string, Value>)
      returns (d: ProductDiscount)
      ensures fresh(d)
      ensures d.GetDiscount() == discount && d.DoRoundDown() == roundDown && d.GetOverrideSettings() == overrides
    {
      d := new ProductDiscount(discount, roundDown, overrides);
    }
  }

  /** The package's test, as a client of the registry: the product "test" is
      configured at 50.00 with a sale that gives 10% off; asking twice hands
      back the same controller, priced at 45.00. */
  method TestRegistry() returns (price: real, sameController: bool, missingFails: bool)
    ensures price == 45.0 && sameController && missingFails
  {
    var sale := new ProductDiscount(10.0, false, map["overridden_setting" := Str("overridden")]);
    var entry := ConfigEntry("test", "Test Product", 50.0, ["test"],
                             map["original_setting" := Str("original")], Str("test-sale"));
    var porter := new ProductPorter(file => Some(sku => if sku == "test" then Some(entry) else None),
                                    (saleId, tags) => sale);
    var first := porter.GetSavedProductController("test");
    var second := porter.GetSavedProductController("test");
    assert first.Ok? && second == first;
    sameController := second == first;
    var product := first.value;
    product.TestProduct();
    price := product.CurrentProductPrice();
    assert price == 45.0;
    assert product.ProductSetting("overridden_setting") == Str("overridden");
    var missing := porter.GetSavedProductController("absent");
    missingFails := missing == Fail(NotFoundMessage);
    assert missingFails;
    assert "absent" !in porter.savedProducts;
  }
}
