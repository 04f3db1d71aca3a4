# Product pricing and setting resolution

A Dafny model of the core of the product package of the Grayl store library
(PHP): the product record (`ProductData`), the optional percentage discount
(`ProductDiscount`), the stateless `ProductService` that computes a product's
current price, its discount in dollars and its effective settings, the
`ProductController` facade that binds a product to its discount, and the
`ProductPorter` registry that builds controllers from the product configuration
and caches them per SKU.

Files, one module each:

- `values.dfy` — `Values`: setting values as a tagged union (null, bool, int,
  float, string, array) and `IsEmpty`, PHP's `empty()` (null, false, 0, 0.0,
  "", "0" and the empty array are empty).
- `decimal.dfy` — `Decimal`: bcmath's arithmetic on exact decimals.
  `TruncTo(x, d)` is the exact value cut to `d` fractional digits by truncation
  toward zero, which is what bcmath does at scale `d`; `Floor` is PHP's `floor`.
- `entity.dfy` — `Entity`: the classes `ProductData` and `ProductDiscount`,
  whose setters update fields in place; each setter states the new value and
  that every other field is unchanged.
- `service.dfy` — `Service`: the pricing arithmetic on plain numbers
  (`PercentAsFraction`, `DollarsOff`, `DiscountedPrice`) and the service's
  operations over the two records, with the lemmas about them.
- `controller.dfy` — `Controller`: `ProductController`, whose product and
  discount are `const` fields set by the constructor and whose queries are
  read-only functions delegating to the service.
- `porter.dfy` — `Porter`: `ProductPorter`, the registry whose saved-products
  map is updated in place by `GetSavedProductController`.

Prices and percentages are Dafny `real`s, i.e. exact decimals. The price after
a discount is computed as in the source: the percentage is divided by 100 and
truncated to 4 digits, the price times that fraction is truncated to 2 digits
(the discount in dollars), the price minus the discount in dollars is
truncated to 2 digits, and the result is floored when the discount rounds down.

bcmath truncates rather than rounds: 0.5% of 149.99 is 0.74995, cut to 0.74,
leaving 149.25 (149 once floored), as the comment at
src/Entity/ProductDiscount.php:24 also has it. `Service.TruncatesRatherThanRounds`
states that case.

## Model

| member | source | states |
|---|---|---|
| `Values.IsEmpty` | src/Service/ProductService.php:32 | PHP `empty()` on a setting value: null, false, 0, 0.0, "", "0" and the empty array are empty, every other value is not. In the model it decides override precedence and the no-sale case (src/ProductPorter.php:136). The PHP's other `empty()` tests are on an object or a lookup result, and the model states those directly: discount presence (src/Service/ProductService.php:53, 76, 127, 150, 172) as `discount != null`, the not-found case (src/ProductPorter.php:96, 130) as `config(sku).None?`, and the cache miss (src/ProductPorter.php:165) as `sku !in savedProducts` |
| `Values.EmptinessIsLoose` | src/ProductPorter.php:136 | "0", 0.0 and false are empty; "0.0", " ", an array holding null, 0.5, -1 and true are not |
| `Decimal.TruncExact` | src/Service/ProductService.php:100-103 | truncating a value that already has at most d fractional digits leaves it unchanged |
| `Decimal.SubAtScale` | src/Service/ProductService.php:100-103 | the difference of two values with at most d fractional digits has at most d fractional digits |
| `Decimal.TruncTo` | src/Service/ProductService.php:100-103 | the bcmath result at scale d lies between 0 and the exact value, less than one unit of the d-th digit away from it, and has at most d fractional digits |
| `Decimal.Floor` | src/Service/ProductService.php:106-109 | PHP floor: a whole number not above x and less than 1 below it |
| `Service.PercentAsFraction` | src/Service/ProductService.php:168-180 | bcdiv(pct, 100, 4): at most 4 fractional digits, within [0, 1] for a percentage within [0, 100], and within 0.0001 of pct/100 on the zero side, for either sign |
| `Service.DollarsOff` | src/Service/ProductService.php:145-158 | bcmul(price, fraction, 2): price × fraction cut toward zero to whole cents — at most 2 fractional digits, on the zero side of the exact product and less than 0.01 from it, for either sign |
| `Service.DiscountedPrice` | src/Service/ProductService.php:95-113 | bcsub(price, dollars, 2), then floor when rounding down: without round-down, price minus the dollars off cut toward zero to whole cents (at most 2 fractional digits, less than 0.01 from the exact difference, for either sign); with it, a whole number |
| `Service.PriceAndDollarsOffAddUp` | src/Service/ProductService.php:95-103 | for a price in whole cents and no round-down, the discounted price plus the dollars off is exactly the price |
| `Service.DiscountedPriceBounds` | src/Service/ProductService.php:95-158 | for price >= 0 and 0 <= pct <= 100, both the dollars taken off and the discounted price (rounded down or not) lie within [0, price] |
| `Service.DollarsOffBounds` | src/Service/ProductService.php:145-158 | a fraction in [0, 1] of a non-negative price, in dollars, lies within [0, price] |
| `Service.RoundDownBelowCut` | src/Service/ProductService.php:106-109 | the rounded-down price is whole, not above the un-floored price and less than 1 below it |
| `Service.TenPercentOffFifty` | tests/ProductControllerTest.php:55-58 | 10% of 50.00 is 5.00 off, leaving 45.00 with or without rounding down |
| `Service.TruncatesRatherThanRounds` | src/Service/ProductService.php:100-109 | 0.5% of 149.99 comes to 0.74 (truncated), leaving 149.25, floored to 149 |
| `Service.TwoStageTruncation` | src/Service/ProductService.php:151-175 | the fraction is truncated before multiplying: 12.345% of 10000 gives 1234.00 where a single truncation would give 1234.50 |
| `Service.OverOneHundredPercent` | src/Service/ProductService.php:95-113 | percentages are not clamped: 150% off 10.00 takes 15.00 off and leaves -5.00 |
| `Service.ProductSetting` | src/Service/ProductService.php:26-39 | a discount's override wins exactly when the discount exists and the override is non-empty in PHP's sense; otherwise the product's own setting; the result is non-empty iff one of the two sources is |
| `Service.ProductSettingIsEffectiveSetting` | src/Service/ProductService.php:32-38 | resolving a key equals reading it from the product's settings overlaid with the discount's non-empty overrides |
| `Service.HasProductDiscount` | src/Service/ProductService.php:49-60 | true iff a discount is present |
| `Service.ProductDiscountAmount` | src/Service/ProductService.php:123-134 | the discount's percentage, or 0 without a discount |
| `Service.ProductDiscountAsDecimal` | src/Service/ProductService.php:168-180 | equals bcdiv(amount, 100, 4) in both branches (the no-discount 0 agrees with dividing a zero amount) |
| `Service.ProductDiscountInDollars` | src/Service/ProductService.php:145-158 | 0.00 without a discount, otherwise bcmul(price, bcdiv(pct, 100, 4), 2) |
| `Service.CalculatePriceWithDiscount` | src/Service/ProductService.php:95-113 | equals the discounted price of the product's price at the discount's percentage and rounding flag |
| `Service.CurrentProductPrice` | src/Service/ProductService.php:71-84 | the original price without a discount, the discounted price with one |
| `Service.NoDiscountMeansOriginal` | src/Service/ProductService.php:49-158 | with no discount: no discount flag, amount 0, 0.00 off, current price = original price, every setting the product's own |
| `Service.CurrentPriceAndDollarsAddUp` | src/Service/ProductService.php:95-103 | for a product priced in whole cents and a discount without round-down, current price plus discount in dollars is the original price |
| `Service.DiscountBounds` | src/Service/ProductService.php:95-158 | for price >= 0 and 0 <= pct <= 100: 0 <= dollars off <= price and 0 <= current price <= price |
| `Entity.ProductData.constructor` | src/Entity/ProductData.php:62-79 | SKU, name, price, tags and settings read back the constructor's arguments |
| `Entity.ProductData.SetSKU` | src/Entity/ProductData.php:87-105 | getSKU returns the new SKU; every other field unchanged |
| `Entity.ProductData.SetName` | src/Entity/ProductData.php:113-131 | getName returns the new name; every other field unchanged |
| `Entity.ProductData.SetPrice` | src/Entity/ProductData.php:139-157 | getPrice returns the new price; every other field unchanged |
| `Entity.ProductData.AddTag` | src/Entity/ProductData.php:165-183 | the tag is appended after the tags already present; other fields unchanged |
| `Entity.ProductData.AddTags` | src/Entity/ProductData.php:191-196 | every given tag is appended, in order, after the tags already present |
| `Entity.ProductData.SetSetting` | src/Entity/ProductData.php:206-240 | getSetting(key) returns the value; settings under other keys and other fields unchanged |
| `Entity.ProductData.SetSettings` | src/Entity/ProductData.php:248-253 | each given key reads back its value; other keys keep theirs |
| `Entity.ProductDiscount.constructor` | src/Entity/ProductDiscount.php:45-57 | percentage, round-down flag and overrides read back the constructor's arguments |
| `Entity.ProductDiscount.SetDiscount` | src/Entity/ProductDiscount.php:65-83 | getDiscount returns the new percentage; flag and overrides unchanged |
| `Entity.ProductDiscount.SetRoundDown` | src/Entity/ProductDiscount.php:91-109 | doRoundDown returns the new flag; percentage and overrides unchanged |
| `Entity.ProductDiscount.SetOverrideSetting` | src/Entity/ProductDiscount.php:119-153 | getOverrideSetting(key) returns the value; other overrides, percentage and flag unchanged |
| `Entity.ProductDiscount.SetOverrideSettings` | src/Entity/ProductDiscount.php:161-166 | each given key reads back its value from getOverrideSetting |
| `Controller.ProductController.constructor` | src/Controller/ProductController.php:47-58 | binds the product and the discount; both are constants from then on |
| `Controller.ProductController.ProductSKU` | src/Controller/ProductController.php:66-71 | the bound product's SKU |
| `Controller.ProductController.ProductName` | src/Controller/ProductController.php:79-84 | the bound product's name |
| `Controller.ProductController.OriginalProductPrice` | src/Controller/ProductController.php:92-97 | the bound product's price |
| `Controller.ProductController.CurrentProductPrice` | src/Controller/ProductController.php:105-111 | the original price without a discount, otherwise the discounted price of the bound pair |
| `Controller.ProductController.ProductSetting` | src/Controller/ProductController.php:121-128 | the key read from the bound product's settings overlaid with the bound discount's non-empty overrides |
| `Controller.ProductController.HasProductDiscount` | src/Controller/ProductController.php:136-141 | true iff a discount is bound |
| `Controller.ProductController.ProductDiscountAmount` | src/Controller/ProductController.php:149-154 | the bound discount's percentage, or 0 |
| `Controller.ProductController.ProductDiscountInDollars` | src/Controller/ProductController.php:162-168 | 0.00 without a discount, otherwise the dollars the bound discount takes off the bound price |
| `Controller.ProductController.PriceWithinOriginal` | src/Controller/ProductController.php:92-168 | for price >= 0 and 0 <= percentage <= 100, current price and dollars off lie within [0, original price] |
| `Controller.ProductController.TestProduct` | tests/ProductControllerTest.php:46-85 | the test product: SKU "test", 50.00 original, 45.00 current, amount 10, 5.00 off, original_setting = "original", overridden_setting = "overridden" |
| `Porter.ProductPorter.constructor` | src/ProductPorter.php:53-62 | when the default file store.product.php loads, the registry holds its configuration and nothing is saved yet |
| `Porter.ProductPorter.Create` | src/ProductPorter.php:48-62 | no registry exactly when loading store.product.php throws; otherwise a fresh registry over that configuration with nothing saved |
| `Porter.ProductPorter.SetConfigFile` | src/ProductPorter.php:65-81 | the file name is always replaced; the configuration is replaced when the new file loads and kept when loading throws (reported as `loaded == false`); saved products unchanged |
| `Porter.ProductPorter.FindProductDiscountFromConfig` | src/ProductPorter.php:126-147 | fails iff the SKU has no configuration entry; no discount when the entry's sale is empty; otherwise the sale lookup's result for the entry's sale and tags |
| `Porter.ProductPorter.NewProductControllerFromConfig` | src/ProductPorter.php:92-115 | fails with the not-found message when the SKU has no entry; otherwise a fresh controller over fresh product data holding the entry's SKU, name, price, tags and settings, and the discount found for it |
| `Porter.ProductPorter.GetSavedProductController` | src/ProductPorter.php:158-176 | a hit returns the saved controller and changes nothing; a miss builds one, saves it under the SKU and returns it; a failed miss saves nothing; existing entries are never changed or removed |
| `Porter.ProductPorter.NewProductDiscount` | src/ProductPorter.php:188-197 | a fresh discount whose percentage, flag and overrides read back the arguments; the registry is untouched |
| `Porter.TestRegistry` | tests/ProductControllerTest.php:23-36 | the test's product "test" at 50.00 with a 10% sale: two lookups hand back the same controller, priced at 45.00, and an unconfigured SKU fails |

## Left out

- Loading a configuration file (`ConfigPorter::newConfigControllerFromFile`) is file I/O; the registry takes it as a parameter `loadConfig` from file name to an optional configuration (None where loading throws; the exception itself and its message are not modelled), and the configuration as a function from SKU to an optional typed entry (an entry with missing or ill-typed fields is not modelled).
- The sale lookup (`SalePorter` and the sale controller's tag search) belongs to another package; it is a parameter from sale value and tags to an existing discount or null.
- `KeyedDataBag` and `FlatDataBag` are not part of this model: they are a `map` and a `seq`; a key that is absent reads as null.
- Values.Value: a PHP array is modelled by its values alone (`Arr(items)`), so an associative array stored as a setting loses its keys; only its emptiness is ever inspected by the package.
- Entity.ProductData.SetSettings: modelled as merging the given settings over the existing ones, because the bag's `setVariables` is not part of this model; on a new product (the constructor) this is exactly the given settings.
- Entity.ProductDiscount.SetOverrideSettings: modelled as merging, for the same reason.
- Porter.ProductPorter.constructor: requires the default file to load, because a PHP constructor that throws yields no object; that failure is modelled by `Porter.ProductPorter.Create`, which returns None.
- The singleton `getInstance()` is global state; the registry is an explicit object.
- `ProductService` has no fields, so it is a module of functions; the controller therefore holds no service reference.
- PHP floats: prices and percentages are exact decimals; the float-to-string conversion before each bcmath call (precision loss, exponent notation) and the float return types are not modelled.
- `ProductHelper::formatNumberAsDollars` is float formatting with `sprintf`.
- Porter.ProductPorter.GetSavedProductController: that a cache hit does not read the configuration is visible in the method body, not stated in its contract.
- The PHPUnit harness; its expected values appear in `Controller.ProductController.TestProduct` and in `Porter.TestRegistry`.
