# product-order-services: order placement, discounts and catalog, modelled in Dafny

This project models the core of a Spring Boot e-commerce service. The service keeps a catalog of
products. Authenticated users place orders of several lines. Each order is priced with a
composable discount policy that depends on the user's role and the order's subtotal.

The model covers:

- **Money and rounding** (`money.dfy`). Amounts are integer cents. Percentages are exact ratios.
  BigDecimal's `setScale(2, HALF_UP)` becomes `RoundHalfUp`: the nearest cent, with ties away from zero.
- **Discount engine** (`discount.dfy`). The three strategies are the variants of a `Rule` datatype,
  each with `IsApplicable` and `CalculateDiscount`. The calculator filters the applicable rules,
  maps them to amounts, sums from zero and rounds. It is compared with an independent
  per-rule reference sum, `SumOfContributions`. The configuration of the test suite is checked as
  one instance: premium 10%, high-value threshold 500.00 at 5%.
- **Entities** (`entities.dfy`). `Product` is a class with `DecreaseQuantity`. `OrderItem` is a class
  whose values are fixed and whose back-reference to its order is mutable. `Order` is a class with
  `AddItem` and `RemoveItem`, which change its item list in place.
- **Catalog** (`catalog.dfy`, `product_specifications.dfy`). `ProductStore` holds the products table
  as a map from id to row. It provides create, get, update, soft delete and search, with the five
  search filters as predicates.
- **Order placement** (`orders.dfy`). The loop of `createOrder` is a method proved against a pure
  specification, `PlaceLines`. `PlaceLines` looks up each line's product, checks the stock,
  decrements it and builds the line. `CreateOrder` then applies the discount and saves the order.
  On any failure the method restores the catalog, which models the transaction rollback.
  `GetOrderById` hides other users' orders behind "not found".
- **Role validation** (`role_validation.dfy`). This is the case-insensitive `@Role` constraint.
- **Logging helpers** (`logging.dfy`). These cover recursive masking of sensitive JSON keys,
  filtering of sensitive headers, the body-method test, the excluded-path test, and truncation of
  bodies that are not JSON.

The logged-in user is an explicit `Identity` parameter; the security-context lookup is not modelled.
The JSON parser's result is an `Option<Json>` parameter. Database ids come from a counter in
the store.

Some facts about the code that the model keeps:

- The high-value threshold is inclusive: `HighValueOrderDiscountStrategy.isApplicable` uses `>=`.
- `orderTotal` is `subtotal - discount`.
- Sensitive values are masked as `"******"`, the value of `ApplicationConstant.MASKED_VALUE`, although
  the `LoggingProperties` comment says `"***REDACTED***"`.
- Stock is read, checked and decremented line by line inside one transaction, with no locking.

## Model

| member | source | states |
|---|---|---|
| Money.RoundHalfUp | src/main/java/com/ecommerce/productorder/service/discount/PremiumUserDiscountStrategy.java:26-27 | the result is a nearest whole unit of n/d, and a tie goes away from zero (HALF_UP), for either sign |
| Money.RoundHalfUpUnique | src/main/java/com/ecommerce/productorder/service/discount/HighValueOrderDiscountStrategy.java:30-31 | any integer meeting the HALF_UP conditions equals RoundHalfUp, so the contract pins the rounding down completely |
| Money.ApplyRate | src/main/java/com/ecommerce/productorder/service/discount/PremiumUserDiscountStrategy.java:26-27 | amount.multiply(rate).setScale(2, HALF_UP) on whole cents; its rounding is given by RoundHalfUp, and its bounds by ApplyRateBounds |
| Money.RoundWholeCents | src/main/java/com/ecommerce/productorder/service/discount/DiscountCalculator.java:40 | the calculator's final setScale(2) leaves a sum of whole cents unchanged |
| Money.ApplyRateToZero | src/main/java/com/ecommerce/productorder/service/discount/PremiumUserDiscountStrategy.java:26-27 | a subtotal of 0 gives a discount of 0 at any rate |
| Money.ApplyRateBounds | src/main/java/com/ecommerce/productorder/service/discount/HighValueOrderDiscountStrategy.java:29-33 | a rate between 0 and 1 gives an amount between 0 and the non-negative subtotal |
| Discount.Rule.IsApplicable | src/main/java/com/ecommerce/productorder/service/discount/DiscountStrategy.java:20-26 | the isApplicable of each strategy; characterised in NoDiscountRule, PremiumApplicability and HighValueApplicability |
| Discount.Rule.CalculateDiscount | src/main/java/com/ecommerce/productorder/service/discount/DiscountStrategy.java:12-18 | the calculateDiscount of each strategy; characterised in NoDiscountRule, PremiumAmount, HighValueAmount and RuleAmountBounds |
| Discount.TotalDiscount | src/main/java/com/ecommerce/productorder/service/discount/DiscountCalculator.java:29-44 | calculateTotalDiscount as filter, map, sum from zero and setScale; TotalIsSumOfApplicable ties it to the per-rule reference sum |
| Discount.Applicable | src/main/java/com/ecommerce/productorder/service/discount/DiscountCalculator.java:33 | a rule is kept iff it is configured and applicable, and each applicable rule is kept as many times as it is configured, while inapplicable rules are dropped completely |
| Discount.SumOfApplicableAmounts | src/main/java/com/ecommerce/productorder/service/discount/DiscountCalculator.java:32-39 | the filter/map/reduce pipeline adds exactly the amounts of the applicable rules, as the reference sum of contributions says |
| Discount.TotalIsSumOfApplicable | src/main/java/com/ecommerce/productorder/service/discount/DiscountCalculator.java:32-40 | the total discount equals the sum of calculateDiscount over exactly the applicable strategies |
| Discount.TotalDiscountAdditive | src/main/java/com/ecommerce/productorder/service/discount/DiscountCalculator.java:32-40 | strategies compose by addition, not by maximum: the total over a + b is the total over a plus the total over b |
| Discount.TotalDiscountOrderIndependent | src/main/java/com/ecommerce/productorder/service/discount/DiscountCalculator.java:20 | the order in which the strategies are injected does not change the total: any two lists holding the same strategies equally often (the same multiset) give the same total |
| Discount.ContributionsPermutation | src/main/java/com/ecommerce/productorder/service/discount/DiscountCalculator.java:32-39 | the per-rule reference sum is the same for any permutation of the rules |
| Discount.NoneApplicableIsZero | src/main/java/com/ecommerce/productorder/service/discount/DiscountCalculator.java:39 | when no strategy applies, the total is the reduce identity, zero |
| Discount.NoDiscountIsNeutral | src/main/java/com/ecommerce/productorder/service/discount/NoDiscountStrategy.java:15-17 | inserting the no-discount strategy anywhere in the list never changes the total |
| Discount.TotalDiscountNonNegative | src/main/java/com/ecommerce/productorder/service/discount/DiscountCalculator.java:39-40 | if every applicable strategy returns a non-negative amount, the total is non-negative |
| Discount.NoDiscountRule | src/main/java/com/ecommerce/productorder/service/discount/NoDiscountStrategy.java:15-22 | the amount is always 0; it applies iff the role is USER, so never to PREMIUM_USER or ADMIN |
| Discount.PremiumApplicability | src/main/java/com/ecommerce/productorder/service/discount/PremiumUserDiscountStrategy.java:31-33 | applicable iff the role is PREMIUM_USER, whatever the subtotal |
| Discount.PremiumAmount | src/main/java/com/ecommerce/productorder/service/discount/PremiumUserDiscountStrategy.java:24-28 | the amount is ApplyRate(subtotal, percentage): the nearest cent of subtotal x percentage with a tie rounded away from zero; it does not depend on the role, and is 0 for a zero subtotal |
| Discount.HighValueApplicability | src/main/java/com/ecommerce/productorder/service/discount/HighValueOrderDiscountStrategy.java:36-39 | applicable iff subtotal >= threshold; the threshold itself qualifies |
| Discount.HighValueAmount | src/main/java/com/ecommerce/productorder/service/discount/HighValueOrderDiscountStrategy.java:27-34 | at or above the threshold the amount is the rounded percentage of the subtotal, below it 0 even when called directly, and the role never matters |
| Discount.RuleAmountBounds | src/main/java/com/ecommerce/productorder/service/discount/HighValueOrderDiscountStrategy.java:29-33 | a rule whose rate lies in [0, 1] gives an amount in [0, subtotal] for a non-negative subtotal |
| Discount.TestConfigurationExamples | src/test/java/com/ecommerce/productorder/service/discount/DiscountCalculatorTest.java:32-97 | the test suite's expected totals: USER 100.00 gives 0.00, PREMIUM_USER 100.00 gives 10.00, USER 600.00 gives 30.00, PREMIUM_USER 600.00 gives 90.00, ADMIN 100.00 gives 0.00, ADMIN 600.00 gives 30.00, and 500.00 qualifies |
| Discount.TestConfigurationComposition | src/test/java/com/ecommerce/productorder/service/discount/DiscountCalculatorTest.java:65-75 | with that configuration a premium order at or above the threshold receives both percentages added, other roles the high-value percentage only, and below the threshold only premium users get a discount |
| Discount.TestConfigurationWithinSubtotal | src/main/java/com/ecommerce/productorder/service/discount/DiscountCalculator.java:32-40 | with that configuration the discount of a non-negative subtotal lies between 0 and the subtotal |
| Entities.ProductData.IsAvailable | src/main/java/com/ecommerce/productorder/model/entity/Product.java:46-48 | available iff quantity > 0 and not deleted; used by ToResponse and AvailableTrueMeansIsAvailable |
| Entities.Product.DecreaseQuantity | src/main/java/com/ecommerce/productorder/model/entity/Product.java:50-55 | succeeds iff quantity >= amount and then subtracts it; otherwise fails with IllegalState naming the product and leaves the quantity; no other field changes; quantity >= 0 is preserved |
| Entities.IndexOfEqual | src/main/java/com/ecommerce/productorder/model/entity/Order.java:47 | the position List.remove removes: the first element equal to the item (same values and same order), or none |
| Entities.Order.constructor | src/main/java/com/ecommerce/productorder/service/impl/OrderServiceImpl.java:87-92 | a new order belongs to the given user and starts with no items |
| Entities.Order.AddItem | src/main/java/com/ecommerce/productorder/model/entity/Order.java:41-44 | the item is appended at the end, earlier items unchanged, and its order reference points to this order |
| Entities.Order.RemoveItem | src/main/java/com/ecommerce/productorder/model/entity/Order.java:46-49 | the first equal item, if any, is removed, the rest keep their order, and the item's order reference becomes null |
| Entities.RemoveAppended | src/main/java/com/ecommerce/productorder/model/entity/Order.java:41-49 | an appended item that no earlier item equals is found at the end of the list |
| Entities.AddThenRemove | src/main/java/com/ecommerce/productorder/model/entity/Order.java:41-49 | on an order not already holding the item, addItem then removeItem restores the original list |
| Entities.OrderItem.constructor | src/main/java/com/ecommerce/productorder/service/impl/OrderServiceImpl.java:77-85 | a new order line holds exactly the given values and belongs to no order yet |
| ProductSpecifications.NameContains | src/main/java/com/ecommerce/productorder/repository/specification/ProductSpecifications.java:10-12 | no constraint for a null name, otherwise the lower-cased product name contains the lower-cased query; properties in NameContainsIgnoresCase, EmptyNameMatchesAll and NameMatchesItself |
| ProductSpecifications.MinPrice | src/main/java/com/ecommerce/productorder/repository/specification/ProductSpecifications.java:14-16 | no constraint for null, otherwise price >= the bound; see PriceBoundsInclusive |
| ProductSpecifications.MaxPrice | src/main/java/com/ecommerce/productorder/repository/specification/ProductSpecifications.java:18-20 | no constraint for null, otherwise price <= the bound; see PriceBoundsInclusive |
| ProductSpecifications.Available | src/main/java/com/ecommerce/productorder/repository/specification/ProductSpecifications.java:22-27 | only available = true constrains: quantity > 0; see AvailableFalseIsNoConstraint and AvailableTrueMeansIsAvailable |
| ProductSpecifications.NotDeleted | src/main/java/com/ecommerce/productorder/repository/specification/ProductSpecifications.java:29-31 | the deleted flag is false |
| ProductSpecifications.NoFilterMatchesLiveProducts | src/main/java/com/ecommerce/productorder/service/impl/ProductServiceImpl.java:65-70 | with every filter null, the search matches exactly the products that are not deleted |
| ProductSpecifications.AvailableFalseIsNoConstraint | src/main/java/com/ecommerce/productorder/repository/specification/ProductSpecifications.java:22-27 | available = false and available = null impose no constraint; neither selects unavailable products |
| ProductSpecifications.AvailableTrueMeansIsAvailable | src/main/java/com/ecommerce/productorder/repository/specification/ProductSpecifications.java:22-31 | notDeleted together with available = true selects exactly the products for which isAvailable holds |
| ProductSpecifications.NameContainsIgnoresCase | src/main/java/com/ecommerce/productorder/repository/specification/ProductSpecifications.java:11 | changing the case of the query or of the product name does not change whether the name filter passes |
| ProductSpecifications.EmptyNameMatchesAll | src/main/java/com/ecommerce/productorder/repository/specification/ProductSpecifications.java:11 | the empty query passes every product |
| ProductSpecifications.NameMatchesItself | src/main/java/com/ecommerce/productorder/repository/specification/ProductSpecifications.java:11 | a product passes the name filter for its own name, in any case |
| ProductSpecifications.PriceBoundsInclusive | src/main/java/com/ecommerce/productorder/repository/specification/ProductSpecifications.java:14-20 | minPrice and maxPrice are inclusive bounds: a product passes minPrice(b) iff b <= price and maxPrice(b) iff price <= b |
| Catalog.ToResponse | src/main/java/com/ecommerce/productorder/service/impl/ProductServiceImpl.java:124-136 | the response copies id, name, description, price and quantity, and its available field equals isAvailable() |
| Catalog.FindLive | src/main/java/com/ecommerce/productorder/service/impl/ProductServiceImpl.java:93-95 | getProduct succeeds iff the id is present and not soft-deleted, and otherwise fails with not-found for Product id |
| Catalog.BuildProduct | src/main/java/com/ecommerce/productorder/service/impl/ProductServiceImpl.java:112-122 | the built product has the request's four fields and deleted = false |
| Catalog.ProductStore.GetProduct | src/main/java/com/ecommerce/productorder/service/impl/ProductServiceImpl.java:93-95 | the stored row iff the id is present and not soft-deleted; otherwise not-found for Product id |
| Catalog.ProductStore.GetProductById | src/main/java/com/ecommerce/productorder/service/impl/ProductServiceImpl.java:41-49 | the response of the live product, or not-found exactly when getProduct fails |
| Catalog.ProductStore.SaveProduct | src/main/java/com/ecommerce/productorder/service/impl/ProductServiceImpl.java:97-100 | the entity's row is written back and nothing else changes; each save is recorded once |
| Catalog.ProductStore.Rollback | src/main/java/com/ecommerce/productorder/service/impl/OrderServiceImpl.java:43 | the all-or-nothing outcome of the transaction: the table and the save record are restored to their state at entry |
| Catalog.ProductStore.CreateProduct | src/main/java/com/ecommerce/productorder/service/impl/ProductServiceImpl.java:29-39 | a product built from the request is stored under a fresh id and returned as a response; existing rows are untouched |
| Catalog.ProductStore.UpdateProduct | src/main/java/com/ecommerce/productorder/service/impl/ProductServiceImpl.java:75-89 | for a live product, overwrites exactly name, description, price and quantity and keeps the deleted flag; otherwise fails with not-found and changes nothing |
| Catalog.ProductStore.DeleteProduct | src/main/java/com/ecommerce/productorder/service/impl/ProductServiceImpl.java:102-110 | for a live product, sets deleted and changes nothing else; otherwise fails with not-found; either way getProduct fails afterwards |
| Catalog.ProductStore.SearchProducts | src/main/java/com/ecommerce/productorder/service/impl/ProductServiceImpl.java:59-73 | the result holds only stored products, each as its response |
| Catalog.SearchIsConjunction | src/main/java/com/ecommerce/productorder/service/impl/ProductServiceImpl.java:65-72 | a product is found iff it satisfies notDeleted and nameContains and minPrice and maxPrice and available |
| Catalog.SearchAvailableOnlyAvailable | src/main/java/com/ecommerce/productorder/service/impl/ProductServiceImpl.java:70 | a search with available = true returns only responses marked available |
| Catalog.SearchWithoutFilters | src/main/java/com/ecommerce/productorder/service/impl/ProductServiceImpl.java:65-66 | without filters, search finds exactly the products getProduct finds |
| Catalog.DeletedIsNotFound | src/main/java/com/ecommerce/productorder/model/entity/Product.java:25-26 | a soft-deleted product is not found |
| Orders.PlaceLine | src/main/java/com/ecommerce/productorder/service/impl/OrderServiceImpl.java:52-62 | one iteration: succeeds iff the product is live and its stock covers the quantity; otherwise not-found, or InsufficientStock with the name, the requested quantity and the stock; on success only that product's stock drops by the quantity and the line has the product's price and price x quantity |
| Orders.PlaceLines | src/main/java/com/ecommerce/productorder/service/impl/OrderServiceImpl.java:51-64 | the loop as a fold of PlaceLine over the request lines, stopping at the first error; characterised in PlaceLinesResult, PlaceLinesSucceedsIff and PlaceLinesFirstFailure |
| Orders.PlaceLinesResult | src/main/java/com/ecommerce/productorder/service/impl/OrderServiceImpl.java:51-64 | after a successful placement each product's stock has dropped by the total quantity requested of it over all lines; the lines are in request order with unitPrice = the product's price, discountApplied = 0 and totalPrice = price x quantity; the subtotal is the sum of the line totals |
| Orders.NextLine | src/main/java/com/ecommerce/productorder/service/impl/OrderServiceImpl.java:52-55 | a further line succeeds iff its product is live and has enough stock once the earlier lines' decrements are counted, and fails with the error those checks give |
| Orders.PlaceLinesSucceedsIff | src/main/java/com/ecommerce/productorder/service/impl/OrderServiceImpl.java:51-58 | placement succeeds iff, for every line, its product is live and the quantities requested of it up to and including that line fit in its stock |
| Orders.PlaceLinesFirstFailure | src/main/java/com/ecommerce/productorder/service/impl/OrderServiceImpl.java:52-55 | the first line that cannot be served decides the error: not-found for its product id, or InsufficientStock with the product's name, the requested quantity and the stock left at that point |
| Orders.FailurePropagates | src/main/java/com/ecommerce/productorder/service/impl/OrderServiceImpl.java:51-55 | once a line fails, the lines after it do not change the outcome |
| Orders.StockNeverNegative | src/main/java/com/ecommerce/productorder/service/impl/OrderServiceImpl.java:53-57 | a placement on a catalog with non-negative stocks leaves every stock non-negative |
| Orders.PlacementOnlyChangesStock | src/main/java/com/ecommerce/productorder/service/impl/OrderServiceImpl.java:51-58 | placement changes no name, description, price or deleted flag, and leaves products that were not requested untouched |
| Orders.ProductIdsPointwise | src/main/java/com/ecommerce/productorder/service/impl/OrderServiceImpl.java:58 | one product save per request line, in request order, of that line's product |
| Orders.OrderService.MapToResponse | src/main/java/com/ecommerce/productorder/service/impl/OrderServiceImpl.java:126-139 | the response carries the order id, the owner's id and username, the lines, orderTotal and totalDiscount |
| Orders.OrderService.GetOrderById | src/main/java/com/ecommerce/productorder/service/impl/OrderServiceImpl.java:94-108 | the order is returned iff it exists and the caller is ADMIN or its owner; otherwise fails with not-found for Order id, the same as for an absent id |
| Orders.OrderService.ServeLine | src/main/java/com/ecommerce/productorder/service/impl/OrderServiceImpl.java:52-63 | one iteration does what PlaceLine says: on failure the catalog is unchanged; on success the stock is decremented, the product saved once and the line appended to the order |
| Orders.OrderService.PlaceItems | src/main/java/com/ecommerce/productorder/service/impl/OrderServiceImpl.java:51-64 | the loop succeeds iff PlaceLines does, with PlaceLines' error, catalog, lines and subtotal, and one save per line |
| Orders.OrderService.CreateOrder | src/main/java/com/ecommerce/productorder/service/impl/OrderServiceImpl.java:43-75 | on failure the error is PlaceLines' error and catalog, save record and orders are as before; on success the catalog and lines are PlaceLines', totalDiscount is the calculator's discount of the subtotal for the user's role, orderTotal = subtotal - discount, and the order is the user's and saved once under a new id |
| OrderProperties.SubtotalNonNegative | src/main/java/com/ecommerce/productorder/service/impl/OrderServiceImpl.java:60-63 | with non-negative prices and quantities the subtotal is non-negative |
| OrderProperties.OrderTotalWithinSubtotal | src/main/java/com/ecommerce/productorder/service/impl/OrderServiceImpl.java:66-67 | with the test configuration, the amount charged lies between 0 and the subtotal |
| OrderProperties.CreateOrderScenario | src/test/java/com/ecommerce/productorder/service/OrderServiceTest.java:133-149 | 2 units at 100.00 from a stock of 10 give one line of 200.00 and leave 8; a USER gets no discount |
| OrderProperties.InsufficientStockScenario | src/test/java/com/ecommerce/productorder/service/OrderServiceTest.java:162-179 | 2 units from a stock of 1 fail with InsufficientStock("Low Stock Product", 2, 1) |
| OrderProperties.ProductNotFoundScenario | src/test/java/com/ecommerce/productorder/service/OrderServiceTest.java:151-160 | an unknown product id 999 fails with not-found for Product id 999 |
| OrderProperties.RepeatedProductScenario | src/main/java/com/ecommerce/productorder/service/impl/OrderServiceImpl.java:51-58 | two lines of 6 for a stock of 10: the second line sees the first decrement and fails with 4 available |
| OrderProperties.PremiumOrderScenario | src/main/java/com/ecommerce/productorder/service/impl/OrderServiceImpl.java:60-67 | a premium order of 2 x 300.00 has subtotal 600.00, discount 90.00 and total 510.00 |
| RoleValidation.AnyNameMatches | src/main/java/com/ecommerce/productorder/validator/RoleValidator.java:22 | true iff some allowed role's name equals the value ignoring case |
| RoleValidation.RoleValidator.Initialize | src/main/java/com/ecommerce/productorder/validator/RoleValidator.java:15-16 | the validator stores exactly the annotation's anyOf |
| RoleValidation.RoleValidator.IsValid | src/main/java/com/ecommerce/productorder/validator/RoleValidator.java:20-23 | isValid: null passes, otherwise some allowed role's name equals the value ignoring case; see IsValidCharacterised |
| RoleValidation.NamesDistinctIgnoringCase | src/main/java/com/ecommerce/productorder/validator/RoleValidator.java:22 | no two roles have names equal ignoring case |
| RoleValidation.IsValidCharacterised | src/main/java/com/ecommerce/productorder/validator/RoleValidator.java:22 | null is valid; a non-null value is valid iff some allowed role's name equals it ignoring case |
| RoleValidation.NameValidIffAllowed | src/main/java/com/ecommerce/productorder/validator/RoleValidator.java:22 | a case variant of a role's name is valid exactly when that role is in anyOf |
| RoleValidation.DefaultAcceptsEveryRole | src/main/java/com/ecommerce/productorder/validator/annotation/Role.java:21 | with the default anyOf, any case variant of ADMIN, USER or PREMIUM_USER is accepted |
| RoleValidation.UnknownNameRejected | src/main/java/com/ecommerce/productorder/validator/RoleValidator.java:22 | a value naming no role is rejected whatever anyOf holds |
| RoleValidation.EmptyRejected | src/main/java/com/ecommerce/productorder/validator/RoleValidator.java:22 | the empty string is rejected |
| RoleValidation.DefaultExamples | src/main/java/com/ecommerce/productorder/validator/annotation/Role.java:21 | with the default anyOf, "premium_user", "Admin" and null are valid and "GUEST" is not |
| Logging.IsSensitiveName | src/main/java/com/ecommerce/productorder/logging/LoggingFilter.java:172-176 | the lower-cased name contains some lower-cased sensitive field; see ExampleSensitiveHeaders |
| Logging.Sanitize | src/main/java/com/ecommerce/productorder/logging/LoggingFilter.java:213-239 | sanitizeJsonObject; its meaning is stated in SanitizeShape, SanitizeMasks and SanitizeIdempotent |
| Logging.SanitizeShape | src/main/java/com/ecommerce/productorder/logging/LoggingFilter.java:213-239 | maps keep their keys in order, non-sensitive values are sanitized recursively, lists keep length and order element by element, scalars are unchanged |
| Logging.SanitizeMasks | src/main/java/com/ecommerce/productorder/logging/LoggingFilter.java:214-229 | after sanitizing, every sensitive key at any depth holds "******" |
| Logging.SanitizeIdempotent | src/main/java/com/ecommerce/productorder/logging/LoggingFilter.java:213-239 | sanitize(sanitize(x)) == sanitize(x) |
| Logging.SanitizeKeepsMasked | src/main/java/com/ecommerce/productorder/logging/LoggingFilter.java:213-239 | a value already masked everywhere is returned unchanged |
| Logging.SanitizeLoginExample | src/main/java/com/ecommerce/productorder/logging/LoggingFilter.java:218-226 | with sensitive field "password", a "Password" key is masked and a "username" key kept, in their order |
| Logging.TruncateBody | src/main/java/com/ecommerce/productorder/logging/LoggingFilter.java:209 | a body of more than 1000 characters becomes its first 1000 characters followed by "..."; a shorter one is returned as is |
| Logging.TruncateBodyBounded | src/main/java/com/ecommerce/productorder/logging/LoggingFilter.java:209 | the logged text is at most 1003 characters and starts with the body's first (up to 1000) characters |
| Logging.ParseJsonBody | src/main/java/com/ecommerce/productorder/logging/LoggingFilter.java:202-211 | a body that parses is logged as the sanitized parse, so every sensitive key is masked; any other body is logged as its truncated text |
| Logging.HasBody | src/main/java/com/ecommerce/productorder/logging/LoggingFilter.java:241-245 | POST, PUT or PATCH ignoring case; see HasBodyIff |
| Logging.HasBodyIff | src/main/java/com/ecommerce/productorder/logging/LoggingFilter.java:241-245 | hasBody holds iff the method's lower-case form is post, put or patch |
| Logging.HasBodyExamples | src/main/java/com/ecommerce/productorder/logging/LoggingFilter.java:241-245 | "post", "Put" and "PATCH" have a body; "GET", "DELETE" and "" do not |
| Logging.ShouldNotFilter | src/main/java/com/ecommerce/productorder/logging/LoggingFilter.java:247-251 | some excluded path is a prefix of the URI; see ExcludedPathsSkipped and ApiPathLogged |
| Logging.ExcludedPathsSkipped | src/main/java/com/ecommerce/productorder/logging/LoggingFilter.java:247-251 | every URI that starts with one of /actuator, /h2-console, /swagger-ui, /api-docs or /favicon.ico is not logged, whatever follows the prefix |
| Logging.ApiPathLogged | src/main/java/com/ecommerce/productorder/logging/LoggingFilter.java:247-251 | every URI under /api/ is logged |
| Logging.ShouldNotFilterExtends | src/main/java/com/ecommerce/productorder/logging/LoggingFilter.java:247-251 | the test is by prefix: anything below a skipped URI is skipped too |
| Logging.KeptHeaders | src/main/java/com/ecommerce/productorder/logging/LoggingFilter.java:149-160 | the headers getHeaders logs: each non-sensitive header name once, with its first value, in order; see KeptHeadersSound and KeptHeadersComplete |
| Logging.GetHeaders | src/main/java/com/ecommerce/productorder/logging/LoggingFilter.java:149-160 | the loop over header names produces exactly KeptHeaders |
| Logging.KeptHeadersSound | src/main/java/com/ecommerce/productorder/logging/LoggingFilter.java:149-176 | every logged header is an input header whose name is not sensitive |
| Logging.KeptHeadersComplete | src/main/java/com/ecommerce/productorder/logging/LoggingFilter.java:149-176 | every header whose name is not sensitive is logged under its name |
| Logging.ExampleSensitiveHeaders | src/main/java/com/ecommerce/productorder/logging/LoggingFilter.java:172-176 | against ["authorization", "token"], "Authorization" and "X-Auth-Token" are sensitive: the lower-case name contains a lower-case field |
| Logging.ExampleOrdinaryHeader | src/main/java/com/ecommerce/productorder/logging/LoggingFilter.java:172-176 | against the same fields, "Content-Type" is not sensitive |
| Logging.GetHeadersExample | src/main/java/com/ecommerce/productorder/logging/LoggingFilter.java:149-160 | of Content-Type, Authorization and X-Auth-Token only Content-Type is logged |

## Left out

- HTTP transport, controllers, paging and sorting: not part of the core. `getUserOrders`, `getAllOrders` and `getAllProducts` are repository pass-throughs with paging and are not modelled.
- Authentication and the security context (`LoggedInUser`, `UserServiceImpl`): the caller's identity is a parameter. The user lookup in `createOrder` (`getUserByUsername`) is assumed to succeed.
- Bean validation (`@NotNull`, `@NotEmpty` on the order request's items, `@Positive`, `@PositiveOrZero`, `@DecimalMin`, `@NotBlank`) runs outside the service code: the model accepts any integer quantity and price, and an empty item list, for which it creates an empty order.
- Entities.Product.DecreaseQuantity: does not model the 32-bit wrap-around of `quantity -= amount`, which only a negative amount could reach, nor a null quantity.
- Money: amounts with more than two fraction digits (a subtotal or threshold finer than a cent) are not representable in cents.
- Catalog.ProductStore.SearchProducts: the database `lower()` and `LIKE` are modelled as ASCII lower-casing and substring search; `%` and `_` in the query act as wildcards in SQL and as literal characters here. The paging of the result is not modelled.
- Text: lower-casing and `equalsIgnoreCase` are ASCII only, and string lengths count characters rather than UTF-16 code units.
- Ids, audit timestamps and the `BaseEntity` fields other than `deleted` are not modelled. Ids come from counters. Item equality (`SameItem`) compares an item's own values and its order reference, but not the referenced order's contents.
- The product reference of an order line is its product id. The product name in `OrderItemResponse` is omitted from `OrderResponse`.
- Caching annotations and the transaction manager are not modelled: only the all-or-nothing outcome of `@Transactional` is, as `Rollback`.
- Concurrency: placements are sequential; the source has no locking or retries.
- Orders.OrderService.CreateOrder: a failure of the final order save is not modelled, because saving to the map cannot fail.
- Logging: MDC, the content-caching wrappers, correlation-id generation, clocks, character decoding, the Jackson parse and the log calls are not modelled (`doFilterInternal`, `logRequest`, `logResponse`). JSON numbers are integers. A JSON object is a list of entries; the uniqueness of keys, which Jackson's map provides, is not modelled.
- RoleValidation.RoleValidator: calling `isValid` before `initialize` is not modelled (in Java, `enumValues` would be null); the constructor starts with an empty list.
- Entities.Order.constructor: sets `orderTotal` and `totalDiscount` to 0, where `buildOrder` leaves them null until `createOrder` sets them at the end.
