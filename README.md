# Greenora service layer in Dafny

Greenora is a Spring Boot shop for eco-friendly products. This project models its service layer: the code that keeps the shop's state.

- **Checkout.** `placeOrder` exists in two variants: the current service (`Greenora_backend`) and the older one (`Greenora`).
- **Carts.** The cart service.
- **Coupons.** Their validation and the coupon table.
- **Catalogue.** The product and category services.
- **Accounts.** The user service.
- **Orders.** The `Order` record and its constructor.

Every repository becomes a table held by one `Store.Database` object. A table is a map from id to record plus the id it generates next. The services are methods that change the tables they name in their `modifies` clause.

Each method is proved against a function on table values. Those functions carry the service's checks, in the service's order, and its error messages. Lemmas state what the services promise about them.

`Database.Valid()` holds the integrity constraints the services rely on. Most are foreign keys the schema enforces. A cart having at most one line per product is kept by `addToCart`'s merge, not by the schema. The constraints are:

- every cart belongs to a user, and a user has at most one cart;
- every cart line points at a cart and a product, and a cart has at most one line per product;
- every product points at a category and a vendor;
- every order points at a user, and every payment at an order.

Every service method keeps `Valid()`. The unique email column of a user is not part of `Valid()`. It is `Users.EmailsDistinct`, and lemmas show that sign-up and profile updates keep it.

Modules, one per file:

- `Base`: results and errors, and Java `int` arithmetic (`Wrap`).
- `Text`: upper-casing and comparing text ignoring case, on ASCII.
- `Tables`: tables and the shapes of repository queries.
- `Entities`: the records.
- `Store`: the database and its constraints.
- `Carts`, `Orders`, `Coupons`, `Products`, `Categories`, `Users`: the services.

These inputs become parameters:

- **The clock.** `LocalDate.now()` becomes a day number `today`.
- **The payment gateway.** Its answer is an input, `GatewayOk(id)` or `GatewayFail`.
- **The password encoder.** It is a function parameter `encode`, about which nothing is assumed.

Money is an exact `real`.

Checkout differs between the two services in four ways:

- **Order status.** The current service records PROCESSING, the older one PENDING.
- **Payment.** The current service records CREDIT_CARD / COMPLETED, the older one UPI / PENDING.
- **Order-line price.** The current service gives each order line its cart line's unit price. The older one gives each line the whole order total.
- **Failed gateway.** When the gateway fails, the current service still writes the order, its lines, the stock and the cart deletion. It then dereferences the gateway's null order, so the call ends with `NullDereference`. The older service returns the order normally.

## Model

| member | source | states |
|---|---|---|
| Entities.NewOrder | Greenora/src/main/java/com/cdac/entities/Order.java:54-63 | the constructor stores total, order date, status and user as given; the delivery date is the clock's day plus 7; a new order has no items and no coupon |
| Entities.DeliveryDateIgnoresOrderDate | Greenora/src/main/java/com/cdac/entities/Order.java:61 | the delivery date does not depend on the order date passed in, while the order does |
| Entities.ParseDeliveryStatus | Greenora_backend/src/main/java/com/cdac/service/OrderServiceimpl.java:160 | `DeliveryStatus.valueOf` succeeds exactly for the names of the enum's constants, taken to be PENDING, PROCESSING, SHIPPED, DELIVERED and CANCELLED (see Left out) |
| Text.ToUpper | Greenora_backend/src/main/java/com/cdac/service/UserServiceImpl.java:34 | upper-casing keeps the length, maps each character, and leaves no lower-case ASCII letter |
| Store.CartOf | Greenora_backend/src/main/java/com/cdac/service/CartServiceimpl.java:41 | a cart found belongs to the user; none is found exactly when the user has no cart |
| Store.LinesOf | Greenora_backend/src/main/java/com/cdac/service/OrderServiceimpl.java:71 | the ids of exactly the cart's lines, ascending; empty exactly when the cart has no line |
| Store.LineOf | Greenora_backend/src/main/java/com/cdac/service/CartServiceimpl.java:55 | a line found is the cart's line for the product; none is found exactly when there is no such line |
| Store.LineOfUnambiguous | Greenora_backend/src/main/java/com/cdac/service/CartServiceimpl.java:55 | with one line per (cart, product), the optional lookup never meets two rows |
| Store.LineOfFinds | Greenora_backend/src/main/java/com/cdac/service/CartServiceimpl.java:55 | with one line per (cart, product), the cart's line for the product is the one found |
| Store.EnsureCart | Greenora_backend/src/main/java/com/cdac/service/CartServiceimpl.java:41-42 | returns a cart of the user; existing carts are kept; at most the one new cart is added; still one cart per user |
| Store.EnsureCartIdempotent | Greenora_backend/src/main/java/com/cdac/service/CartServiceimpl.java:38-44 | a second lookup returns the same cart and creates nothing |
| Store.NewCartHasNoLines | Greenora_backend/src/main/java/com/cdac/service/OrderServiceimpl.java:68-72 | a cart created by the lookup has no lines |
| Store.Database.CommitCheckout | Greenora_backend/src/main/java/com/cdac/service/OrderServiceimpl.java:89-129 | the writes of one checkout transaction replace exactly the order, payment, product and cart-line tables, keeping the constraints |
| Carts.AddedLine | Greenora_backend/src/main/java/com/cdac/service/CartServiceimpl.java:55-70 | saving the line keeps one line per (cart, product) |
| Carts.AddedLineResult | Greenora_backend/src/main/java/com/cdac/service/CartServiceimpl.java:58-68 | afterwards the cart has exactly one line for the product, at the product's current price, holding the old quantity plus the added one (Java `int` sum) or the added quantity when the line is new |
| Carts.AddedLineKeys | Greenora_backend/src/main/java/com/cdac/service/CartServiceimpl.java:58-70 | a merge keeps the line's id and the set of ids; a new line gets one fresh id |
| Carts.AddedLineKeepsOthers | Greenora_backend/src/main/java/com/cdac/service/CartServiceimpl.java:55-70 | every other line, of this cart or another, is unchanged |
| Carts.AddedLineReferenced | Greenora_backend/src/main/java/com/cdac/service/CartServiceimpl.java:63-70 | the saved line points at a stored cart and product |
| Carts.QuantitySet | Greenora_backend/src/main/java/com/cdac/service/CartServiceimpl.java:81-86 | only quantities change and the set of lines is kept |
| Carts.QuantitySetSpec | Greenora_backend/src/main/java/com/cdac/service/CartServiceimpl.java:81-86 | fails with "invalid cart and product  id!!!" exactly when the cart has no line for the product; otherwise that line's quantity becomes the given one, whatever its sign, and nothing else changes |
| Carts.QuantitySetKeepsIntegrity | Greenora_backend/src/main/java/com/cdac/service/CartServiceimpl.java:84-86 | the update keeps one line per (cart, product) and every line's references |
| Carts.RemovedLineSpec | Greenora_backend/src/main/java/com/cdac/service/CartServiceimpl.java:102 | deletes the cart's line for the product and nothing else; an absent line leaves the table as it was |
| Carts.ClearedCartSpec | Greenora_backend/src/main/java/com/cdac/service/CartServiceimpl.java:110 | deletes exactly the cart's lines and keeps the other carts' lines unchanged |
| Carts.ClearIdempotent | Greenora_backend/src/main/java/com/cdac/service/CartServiceimpl.java:107-111 | clearing twice is clearing once |
| Carts.GetCartByUserId | Greenora_backend/src/main/java/com/cdac/service/CartServiceimpl.java:38-44 | an unknown user fails with NotFound and creates nothing; otherwise the user's cart, created when missing |
| Carts.AddToCart | Greenora_backend/src/main/java/com/cdac/service/CartServiceimpl.java:47-76 | unknown user, then unknown product, fail with NotFound; otherwise the line table becomes `AddedLine` at the product's price, and the response echoes the requested quantity and product and lists the ids of the cart's lines after the save, the saved line among them |
| Carts.UpdateCartItem | Greenora_backend/src/main/java/com/cdac/service/CartServiceimpl.java:79-89 | the line table becomes `QuantitySet`'s, or stays when that fails |
| Carts.RemoveFromCart | Greenora_backend/src/main/java/com/cdac/service/CartServiceimpl.java:92-104 | unknown user, then unknown product, fail; otherwise the line table becomes `RemovedLine`'s and "deleted!!" is returned |
| Carts.ClearCart | Greenora_backend/src/main/java/com/cdac/service/CartServiceimpl.java:107-112 | the user's cart lines are deleted and "cart cleared!!!" is returned |
| Orders.ApplyCoupon | Greenora_backend/src/main/java/com/cdac/service/OrderServiceimpl.java:80-86 | an unknown coupon id fails with "Invalid coupon"; the total changes only when the coupon is active and the total reaches its minimum, and then by exactly the discount |
| Orders.ApplyCouponIgnoresDates | Greenora_backend/src/main/java/com/cdac/service/OrderServiceimpl.java:83 | moving a coupon's validity window does not change the discount checkout applies |
| Orders.OrderLines | Greenora_backend/src/main/java/com/cdac/service/OrderServiceimpl.java:121-123 | one order line per cart line, in order, with its product and quantity; the price is the line's unit price (current) or the order total (older) |
| Orders.OrderLinesAmount | Greenora_backend/src/main/java/com/cdac/service/OrderServiceimpl.java:76-78 | the current variant's order lines add up to the cart total Σ quantity × price |
| Orders.LegacyLinesOvercharge | Greenora/src/main/java/com/cdac/service/OrderServiceimpl.java:118-120 | one line of 2 units at 50.0: the order total is 100.0, but the older variant's lines add up to 200.0 while the current one's add up to the total |
| Orders.DecrementedStock | Greenora_backend/src/main/java/com/cdac/service/OrderServiceimpl.java:125 | each product's stock drops by exactly the units its lines ordered, in Java `int` arithmetic and without a lower bound; other products keep their stock |
| Orders.DecrementedKeepsReferences | Greenora_backend/src/main/java/com/cdac/service/OrderServiceimpl.java:124-126 | taking stock keeps every cart line's and every product's references valid |
| Orders.PlacedOrder | Greenora_backend/src/main/java/com/cdac/service/OrderServiceimpl.java:88-89 | the stored order has the discounted total, the user, today's date, delivery in 7 days, no coupon, status PROCESSING (current) or PENDING (older), one item per cart line |
| Orders.PlaceFromCartPlaces | Greenora_backend/src/main/java/com/cdac/service/OrderServiceimpl.java:71-129 | once the price is known, checkout's tables are those of placing the order from the cart's lines at that price |
| Orders.PlacementKeepsIntegrity | Greenora_backend/src/main/java/com/cdac/service/OrderServiceimpl.java:88-129 | placing an order keeps every constraint on the tables it writes |
| Orders.TakeOrderLines | Greenora_backend/src/main/java/com/cdac/service/OrderServiceimpl.java:121-127 | the loop over the cart lines yields exactly `PlacedOrder`'s items and `Decremented`'s stock |
| Orders.Commit | Greenora_backend/src/main/java/com/cdac/service/OrderServiceimpl.java:88-129 | the database becomes `Placement` of the old tables and stays valid |
| Orders.PlaceOrderFromCart | Greenora_backend/src/main/java/com/cdac/service/OrderServiceimpl.java:71-129 | the database and result are `PlaceFromCart`'s |
| Orders.Checkout | Greenora_backend/src/main/java/com/cdac/service/OrderServiceimpl.java:66-129 | the database and result are `CheckoutOutcome`'s |
| Orders.PlaceOrder | Greenora_backend/src/main/java/com/cdac/service/OrderServiceimpl.java:65-132 | the tables are `CheckoutOutcome`'s; on success with a gateway answer it returns (gateway id, total, "INR", order id); with a failed gateway the writes happen and the call ends with `NullDereference` |
| Orders.LegacyPlaceOrder | Greenora/src/main/java/com/cdac/service/OrderServiceimpl.java:62-128 | the tables are `CheckoutOutcome`'s for the older variant, whatever the gateway said; on success it returns the new order's header, status PENDING |
| Orders.CheckoutFailureKeepsTables | Greenora_backend/src/main/java/com/cdac/service/OrderServiceimpl.java:66-82 | an unknown user fails with NotFound and changes nothing; any failure changes at most the cart table, by creating the user's cart |
| Orders.CheckoutRejectsEmptyCart | Greenora_backend/src/main/java/com/cdac/service/OrderServiceimpl.java:68-72 | a known user with no cart lines fails with "cart is empty" |
| Orders.CheckoutOpens | Greenora_backend/src/main/java/com/cdac/service/OrderServiceimpl.java:66-86 | a successful checkout had a known user, an existing cart with lines, and a total equal to the coupon rule applied to Σ quantity × price |
| Orders.CheckoutStoresOrder | Greenora_backend/src/main/java/com/cdac/service/OrderServiceimpl.java:88-89 | success stores one new order under a fresh id and leaves users, carts and coupons unchanged |
| Orders.CheckoutRecordsPayment | Greenora_backend/src/main/java/com/cdac/service/OrderServiceimpl.java:90-118 | success stores exactly one payment for the order and total when the gateway answered, and none when it failed |
| Orders.CheckoutEmptiesCart | Greenora_backend/src/main/java/com/cdac/service/OrderServiceimpl.java:129 | success deletes every line of the user's cart and keeps every other cart's lines |
| Orders.CheckoutTakesStock | Greenora_backend/src/main/java/com/cdac/service/OrderServiceimpl.java:121-127 | success leaves the product table that `DecrementedStock` describes |
| Orders.PlacedOrderLines | Greenora_backend/src/main/java/com/cdac/service/OrderServiceimpl.java:121-123 | each order item copies its cart line's product and quantity; the current variant's items are worth the cart total, the older one's each carry the order total as price |
| Orders.InsertByDatePermutes | Greenora_backend/src/main/java/com/cdac/service/OrderServiceimpl.java:137 | inserting into the sorted list adds the order once and keeps every other entry |
| Orders.InsertByDateSorted | Greenora_backend/src/main/java/com/cdac/service/OrderServiceimpl.java:137 | inserting into a latest-first list keeps it latest first |
| Orders.SortByDateSpec | Greenora_backend/src/main/java/com/cdac/service/OrderServiceimpl.java:137 | the sort is a permutation of its input and lists orders latest first |
| Orders.OrdersByUser | Greenora_backend/src/main/java/com/cdac/service/OrderServiceimpl.java:135-140 | exactly the user's orders, each once, latest first |
| Orders.GetOrderById | Greenora_backend/src/main/java/com/cdac/service/OrderServiceimpl.java:143-148 | the stored order, or "invalid order id!!!" exactly when the id is unknown |
| Orders.OrderUpdate | Greenora_backend/src/main/java/com/cdac/service/OrderServiceimpl.java:157-162 | an unknown id fails with NotFound, a name that is no status with IllegalArgument, both without change; otherwise only that order's status is replaced, with no transition check |
| Coupons.CouponByCode | Greenora_backend/src/main/java/com/cdac/service/CouponServiceImpl.java:53-54 | missing exactly when no coupon's code equals the given one ignoring case; a coupon found is the only one with that code |
| Coupons.ValidateAndGet | Greenora_backend/src/main/java/com/cdac/service/CouponServiceImpl.java:52-67 | "invalid code!" exactly when no code matches; a coupon returned is stored under a matching code, usable today and reached by the amount; the only errors are the three messages and a code shared by several coupons |
| Coupons.ValidateAndGetAccepts | Greenora_backend/src/main/java/com/cdac/service/CouponServiceImpl.java:52-67 | validation succeeds exactly when the code names one coupon that is active, inside its window with both ends included, and whose minimum the amount reaches; it then returns that coupon unchanged |
| Coupons.ValidityCheckedBeforeMinimum | Greenora_backend/src/main/java/com/cdac/service/CouponServiceImpl.java:57-65 | a coupon not usable today is "coupon is not valid!!" whatever the amount |
| Coupons.MinimumChecked | Greenora_backend/src/main/java/com/cdac/service/CouponServiceImpl.java:63-65 | a usable coupon whose minimum is not reached is "minimum amt not reached!!" |
| Coupons.ValidatedCouponDiscounts | Greenora_backend/src/main/java/com/cdac/service/OrderServiceimpl.java:80-86 | a coupon that validates for a total is discounted by checkout on that total |
| Coupons.UnusableCouponRefused | Greenora_backend/src/main/java/com/cdac/service/CouponServiceImpl.java:57-61 | an inactive or out-of-window coupon is never returned for its own code |
| Coupons.ExpiredCouponStillDiscounts | Greenora_backend/src/main/java/com/cdac/service/OrderServiceimpl.java:83 | an active coupon past its window fails validation, yet checkout still takes its discount |
| Coupons.ActiveCoupons | Greenora_backend/src/main/java/com/cdac/service/CouponServiceImpl.java:70-72 | exactly the coupons whose active flag is set, ascending |
| Coupons.ActiveCouponsIgnoreDates | Greenora_backend/src/main/java/com/cdac/service/CouponServiceImpl.java:70-72 | moving a coupon's window does not change the list |
| Coupons.AddCoupon | Greenora_backend/src/main/java/com/cdac/service/CouponServiceImpl.java:29-33 | the coupon is stored under a fresh id as active, whatever the request said |
| Coupons.AddedCouponIsActive | Greenora_backend/src/main/java/com/cdac/service/CouponServiceImpl.java:31 | the added coupon joins the active list, after those already there |
| Coupons.UpdateCoupon | Greenora_backend/src/main/java/com/cdac/service/CouponServiceImpl.java:36-43 | an unknown id fails with "invalid couponid!!!" without change; otherwise the request replaces the stored coupon |
| Products.AddProductOutcome | Greenora_backend/src/main/java/com/cdac/service/ProductServiceImpl.java:38-60 | the checks in the source's order: an unknown category fails with "invalid category!!!", then a name already used in the category with "same category and poroduct name alrdy exist!!", then an unknown vendor with "wrong vendor id!!!"; a saved product's category and vendor exist |
| Products.AddProductAccepts | Greenora_backend/src/main/java/com/cdac/service/ProductServiceImpl.java:39-57 | a product is added exactly when category and vendor exist and the category has no product of that name; it is then IN_STOCK, active, in that category, by that vendor |
| Products.SameNameInOtherCategoryAllowed | Greenora_backend/src/main/java/com/cdac/service/ProductServiceImpl.java:42-44 | a name used only in other categories does not block the product |
| Products.AddProductKeepsNamesDistinct | Greenora_backend/src/main/java/com/cdac/service/ProductServiceImpl.java:42-57 | adding keeps product names distinct within each category |
| Products.AddProductKeepsIntegrity | Greenora_backend/src/main/java/com/cdac/service/ProductServiceImpl.java:45-57 | the new product keeps every catalogue and cart-line reference valid |
| Products.AddProduct | Greenora_backend/src/main/java/com/cdac/service/ProductServiceImpl.java:38-60 | returns `AddProductOutcome`'s result and stores the product under a fresh id when it succeeds |
| Products.UpdateProductOutcome | Greenora_backend/src/main/java/com/cdac/service/ProductServiceImpl.java:66-81 | an unknown id fails with "Product not found"; success changes only that product |
| Products.UpdateProductAccepts | Greenora_backend/src/main/java/com/cdac/service/ProductServiceImpl.java:69-81 | keeping the name always passes; a new name passes exactly when no product in any category has it; the product keeps category and vendor and becomes IN_STOCK and active whatever its quantity |
| Products.UpdateProductKeepsNamesDistinct | Greenora_backend/src/main/java/com/cdac/service/ProductServiceImpl.java:69-81 | updating keeps product names distinct within each category |
| Products.UpdateProduct | Greenora_backend/src/main/java/com/cdac/service/ProductServiceImpl.java:63-83 | the product table becomes `UpdateProductOutcome`'s and the updated product is returned, or nothing changes on error |
| Products.DeleteProductOutcome | Greenora_backend/src/main/java/com/cdac/service/ProductServiceImpl.java:86-91 | an unknown id fails with "invalid product id!!!"; success exactly when no cart line or order line refers to the product, and then removes exactly that product (reviews are not modelled, see Left out) |
| Products.DeleteProductKeepsIntegrity | Greenora_backend/src/main/java/com/cdac/service/ProductServiceImpl.java:90 | deleting an unreferenced product keeps every reference valid |
| Products.DeleteProduct | Greenora_backend/src/main/java/com/cdac/service/ProductServiceImpl.java:86-92 | the product table becomes `DeleteProductOutcome`'s and "deleted!!!" is returned, or nothing changes on error |
| Products.SearchProducts | Greenora_backend/src/main/java/com/cdac/service/ProductServiceImpl.java:113-120 | exactly the products with that name; "list is empty" exactly when there are none |
| Products.ProductsByVendor | Greenora_backend/src/main/java/com/cdac/service/ProductServiceImpl.java:123-129 | exactly the vendor's products; "list is empty" exactly when there are none |
| Products.AddedProductIsFound | Greenora_backend/src/main/java/com/cdac/service/ProductServiceImpl.java:57 | a product just added is found by its name and under its vendor |
| Categories.AddCategoryOutcome | Greenora_backend/src/main/java/com/cdac/service/CategoryServiceImpl.java:32-37 | "duplicate category name!!" exactly when some category has exactly that name |
| Categories.AddCategoryKeepsNamesDistinct | Greenora_backend/src/main/java/com/cdac/service/CategoryServiceImpl.java:33-37 | adding stores exactly one category under a fresh id and keeps names distinct |
| Categories.AddCategory | Greenora_backend/src/main/java/com/cdac/service/CategoryServiceImpl.java:32-38 | the category table becomes `AddCategoryOutcome`'s, or nothing changes on error |
| Categories.AllCategories | Greenora_backend/src/main/java/com/cdac/service/CategoryServiceImpl.java:41-44 | every category, ascending |
| Categories.UpdateCategoryOutcome | Greenora_backend/src/main/java/com/cdac/service/CategoryServiceImpl.java:55-67 | an unknown id fails with "Invalid category ID"; success replaces that category's name and description by the request's |
| Categories.UpdateCategoryAccepts | Greenora_backend/src/main/java/com/cdac/service/CategoryServiceImpl.java:59-62 | refused exactly when the new name is not a case variant of the current one and some category has exactly that name |
| Categories.CaseVariantRenameSkipsCheck | Greenora_backend/src/main/java/com/cdac/service/CategoryServiceImpl.java:59 | a case-only rename is accepted even when another category has exactly the new name, which then appears twice |
| Categories.OtherRenameKeepsNamesDistinct | Greenora_backend/src/main/java/com/cdac/service/CategoryServiceImpl.java:59-62 | any other accepted rename keeps names distinct |
| Categories.UpdateCategory | Greenora_backend/src/main/java/com/cdac/service/CategoryServiceImpl.java:55-68 | the category table becomes `UpdateCategoryOutcome`'s, or nothing changes on error |
| Categories.ProductsIn | Greenora_backend/src/main/java/com/cdac/service/CategoryServiceImpl.java:50 | exactly the products filed under the category, which the delete cascades to |
| Categories.DeleteCategoryOutcome | Greenora_backend/src/main/java/com/cdac/service/CategoryServiceImpl.java:47-51 | an unknown id fails with "category not found!!"; success exactly when none of its products is referenced by a cart line or order line (reviews are not modelled, see Left out) |
| Categories.DeleteCategoryRemovesItsProducts | Greenora_backend/src/main/java/com/cdac/service/CategoryServiceImpl.java:50 | success removes the category and exactly its products, keeps every other row, and keeps every reference valid |
| Categories.DeleteCategory | Greenora_backend/src/main/java/com/cdac/service/CategoryServiceImpl.java:47-52 | both tables become `DeleteCategoryOutcome`'s and "deleted!!!" is returned, or nothing changes on error |
| Users.SignUp | Greenora_backend/src/main/java/com/cdac/service/UserServiceImpl.java:31-39 | "user already exist by email!!!!" exactly when the email is registered; otherwise the user is stored under a fresh id |
| Users.SignUpKeepsInvariants | Greenora_backend/src/main/java/com/cdac/service/UserServiceImpl.java:31-39 | a sign-up keeps emails distinct and every stored password an encoder output |
| Users.RegisteredUserShape | Greenora_backend/src/main/java/com/cdac/service/UserServiceImpl.java:34-38 | the stored role is the requested one upper-cased, the stored password is the encoding of the requested one, no address |
| Users.RegisterUser | Greenora_backend/src/main/java/com/cdac/service/UserServiceImpl.java:30-41 | the user table becomes `SignUp`'s and the saved user is returned without its password, or nothing changes on error |
| Users.AddVendor | Greenora_backend/src/main/java/com/cdac/service/UserServiceImpl.java:72-82 | as registration, with role ROLE_VENDOR and the encoded password; the saved vendor is returned with its id, role and the encoded password that is stored |
| Users.Login | Greenora_backend/src/main/java/com/cdac/service/UserServiceImpl.java:44-51 | "emaill not found!!!" exactly when no user has the email; otherwise the user with that email, with the stored address when there is one |
| Users.LoginIgnoresPassword | Greenora_backend/src/main/java/com/cdac/service/UserServiceImpl.java:44-50 | the result is the same whatever password is given |
| Users.LoginFinds | Greenora_backend/src/main/java/com/cdac/service/UserServiceImpl.java:45-49 | with distinct emails, login returns the one user with the email, and reports an address exactly when the user has one |
| Users.RegisteredUserLogsIn | Greenora_backend/src/main/java/com/cdac/service/UserServiceImpl.java:30-51 | a user just registered can log in, under the new id, with no address |
| Users.BlankPasswordStoredRaw | Greenora_backend/src/main/java/com/cdac/service/UserServiceImpl.java:57-60 | as written, a blank request password replaces the stored encoded password with the blank text |
| Users.ProfileOutcome | Greenora_backend/src/main/java/com/cdac/service/UserServiceImpl.java:54-61 | an unknown id fails with "id not found!!!"; success changes only that user |
| Users.UpdateProfileOutcome | Greenora_backend/src/main/java/com/cdac/service/UserServiceImpl.java:54-61 | updateProfile as written: an unknown id fails with "id not found!!!"; success changes only that user |
| Users.UpdateProfileAccepts | Greenora_backend/src/main/java/com/cdac/service/UserServiceImpl.java:55-60 | succeeds exactly when no other user has the requested email; name, email and phone are copied; a non-blank password is stored encoded, a blank one is stored as typed; role and address are kept |
| Users.UpdateProfileKeepsEmailsDistinct | Greenora_backend/src/main/java/com/cdac/service/UserServiceImpl.java:57-60 | as written, an update keeps emails distinct, and keeps every stored password an encoder output when the request's password is not blank |
| Users.CorrectedProfileOutcome | Greenora_backend/src/main/java/com/cdac/service/UserServiceImpl.java:58-60 | the intended update succeeds exactly when the as-written one does, and a blank password leaves the stored one alone |
| Users.UpdateProfileKeepsInvariants | Greenora_backend/src/main/java/com/cdac/service/UserServiceImpl.java:57-60 | the intended update keeps emails distinct and every stored password an encoder output, whatever the request's password |
| Users.UpdateProfile | Greenora_backend/src/main/java/com/cdac/service/UserServiceImpl.java:54-62 | the user table becomes `UpdateProfileOutcome`'s, the code as written, and the updated user is returned, or nothing changes on error |

## Left out

- **Transactions.** Rollback after an exception is not modelled: a service that fails part-way keeps the writes made before the failure, such as a cart created by the lookup. Checkout's writes are committed together, since each service method runs in one transaction.
- **Input and output.** Console output, e-mail, and the HTTP, JWT and security layers are not modelled.
- **Payment gateway.** The Razorpay client is not modelled; its answer is an input. The amount sent to it, `(int)(total * 100)` paise, is not modelled.
- **Money.** Money is an exact `real`, so IEEE `double` rounding is not modelled.
- **Clock.** The payment's time of day is not kept; only its day is.
- **Concurrency.** Simultaneous checkouts and their interleaving are not modelled.
- **Mapping and text.** ModelMapper's property matching is replaced by explicit field copies. Database collation is replaced by exact text comparison (`existsByName`, `findByName`, `existsByEmail`). Upper-casing and case-insensitive comparison cover ASCII letters only, and `IsBlank` (Java's `isBlank`) recognises only ASCII whitespace, not every character `Character.isWhitespace` accepts.
- **`deleteCoupon`.** Not modelled; it is a plain `deleteById`.
- **Plain reads.** `getProductById`, `getAllProducts`, `getProductsByCategoryId`, `getUserById` and `getAlllOrders` are not modelled.
- **Legacy order queries.** The older service's `getOrdersByUser` and `getOrderById` are the same queries as the current ones and share their members.
- Orders.PlacedOrderLines: the older variant's order lines are stated line by line (each price is the order total), not summed. The general sum involves products of reals that the solver does not settle; `Orders.LegacyLinesOvercharge` shows the sum on one input.
- Products.UpdateProduct: the request's vendor id is not applied to the product. ModelMapper would copy it into the vendor association, and the model keeps the vendor instead.
- Users.RegisterUser: the conversion of the upper-cased role text to the `UserRole` enum is not modelled. `UserRole` is not part of this model, so the role stays text.
- Users.UpdateProfile: `UserUpdateDto` is not part of this model. The request is taken to carry name, email, password and phone, none of them null; null fields, which ModelMapper would copy, are not modelled.
- **Enums.** `DeliveryStatus`, `PaymentStatus` and `StockStatus` are not part of this model, so their constants are assumed. The code itself uses PROCESSING and PENDING (Greenora_backend/src/main/java/com/cdac/service/OrderServiceimpl.java:88, Greenora/src/main/java/com/cdac/service/OrderServiceimpl.java:85) and IN_STOCK (Greenora_backend/src/main/java/com/cdac/service/ProductServiceImpl.java:46). The model assumes PENDING, PROCESSING, SHIPPED, DELIVERED and CANCELLED for delivery, PENDING, COMPLETED and FAILED for payment status, and IN_STOCK and OUT_OF_STOCK for stock. The set `Entities.ParseDeliveryStatus` accepts is therefore assumed, not read from the enum. `PaymentMethod`'s constants are those of Greenora/src/main/java/com/cdac/entities/PaymentMethod.java:3-10.
- Products.DeleteProductOutcome: the review table is not modelled. A review's product column is a non-null foreign key (Greenora_backend/src/main/java/com/cdac/entities/Review.java:23-25), so the source also refuses to delete a reviewed product. The model deletes it.
- Categories.DeleteCategoryOutcome: for the same reason, the source refuses to delete a category whose products include a reviewed one. The model deletes it.
- Carts.AddToCart: `Cart` is not part of this model. The response's `items` are taken to be the cart's lines after the save; whether the entity's in-memory list already holds a line saved in the same call, in particular for a cart created in that call, is not modelled.
- Users.AddVendor: `VendorDto` is not part of this model. The request is taken to carry name, email, password and phone. The result is taken to carry the saved user's id, name, email, encoded password, phone and role.

## Findings

| source | as written | input that shows it | evidently intended | confidence | as-written member | corrected member |
|---|---|---|---|---|---|---|
| Greenora/src/main/java/com/cdac/service/OrderServiceimpl.java:119-120 | every order line's price is the whole order total | one cart line of 2 units at 50.0: total 100.0, lines worth 200.0 | each line records its cart line's unit price, as the current service does | high, not executed | Orders.LegacyLinesOvercharge | Orders.OrderLinesAmount |
| Greenora_backend/src/main/java/com/cdac/service/UserServiceImpl.java:57-60 | the request is copied onto the user before the blank-password check, so a blank password is stored as typed | a profile update whose password is "" replaces the stored encoded password with "" | a blank password leaves the stored password alone, so every stored password stays encoded | medium, not executed | Users.BlankPasswordStoredRaw | Users.UpdateProfileKeepsInvariants |
