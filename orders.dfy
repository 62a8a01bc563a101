/** The order service: checkout, in its current and its older variant, and
    the order queries. The two variants run the same steps and differ in the
    initial delivery status, the payment they record, the price they give
    each order line, and what they return. */
module Orders {
  import opened Base
  import opened Tables
  import opened Entities
  import opened Store
  import opened Carts

  /** What the payment gateway answered when asked to create its order. */
  datatype GatewayOutcome = GatewayOk(id: string) | GatewayFail

  /** `Current` is Greenora_backend's service, `Legacy` the older Greenora one. */
  datatype Variant = Current | Legacy

  const CURRENCY: string := "INR"

  /** PaymentResDto: the gateway's order id, the amount, the currency and our order id. */
  datatype PaymentSummary = PaymentSummary(gatewayOrderId: string, amount: real, currency: string, orderId: nat)

  /** What checkout stored, before each variant shapes its answer. */
  datatype Placed = Placed(orderId: nat, total: real)

  // ----- Pricing -----

  function LineAmount(l: CartItem): real
  {
    l.quantity as real * l.price
  }

  /** Σ quantity × price over the listed cart lines. */
  function CartTotal(items: map<nat, CartItem>, ids: seq<nat>): real
    requires forall k :: 0 <= k < |ids| ==> ids[k] in items
    decreases |ids|
  {
    if ids == [] then 0.0
    else CartTotal(items, ids[..|ids| - 1]) + LineAmount(items[ids[|ids| - 1]])
  }

  /** Whether checkout subtracts the coupon's discount from `total`. */
  predicate Discounts(c: Coupon, total: real)
  {
    total >= c.minOrderAmt && c.active
  }

  /** The coupon rule of checkout. No coupon leaves the total alone; an
      unknown coupon id fails; a known coupon takes off its whole discount
      when the total reaches its minimum and it is active. The validity
      window is not looked at. */
  function ApplyCoupon(coupons: Table<Coupon>, couponId: Option<nat>, total: real): (r: Result<real>)
    ensures r.Err? <==> couponId.Some? && couponId.value !in coupons.rows
    ensures r.Err? ==> r.error == NotFound("Invalid coupon")
    ensures r.Ok? && r.value != total ==>
      couponId.Some? && Discounts(coupons.rows[couponId.value], total)
    ensures r.Ok? && couponId.Some? && Discounts(coupons.rows[couponId.value], total) ==>
      r.value == total - coupons.rows[couponId.value].discountValue
  {
    match couponId
    case None => Ok(total)
    case Some(id) =>
      if id !in coupons.rows then Err(NotFound("Invalid coupon"))
      else
        var coupon := coupons.rows[id];
        if Discounts(coupon, total) then Ok(total - coupon.discountValue) else Ok(total)
  }

  /** Steps 3 to 5 of checkout: the cart must have lines; the total is
      Σ quantity × price over them, then the coupon rule applies. */
  function Price(items: Table<CartItem>, cartId: nat, coupons: Table<Coupon>, couponId: Option<nat>): (r: Result<real>)
    ensures LinesOf(items, cartId) == [] ==> r == Err(NotFound("cart is empty"))
    ensures LinesOf(items, cartId) != [] ==> r == ApplyCoupon(coupons, couponId, CartTotal(items.rows, LinesOf(items, cartId)))
  {
    var lines := LinesOf(items, cartId);
    if lines == [] then Err(NotFound("cart is empty"))
    else ApplyCoupon(coupons, couponId, CartTotal(items.rows, lines))
  }

  /** The coupon rule does not depend on the coupon's validity window. */
  lemma ApplyCouponIgnoresDates(coupons: Table<Coupon>, id: nat, from: Day, until: Day, total: real)
    requires id in coupons.rows
    ensures var moved := Put(coupons, id, coupons.rows[id].(validFrom := from, validUntil := until));
            ApplyCoupon(moved, Some(id), total) == ApplyCoupon(coupons, Some(id), total)
  {
  }

  // ----- Order lines -----

  /** The order line written for a cart line. The current variant records the
      line's unit price; the older one records the whole order total. */
  function OrderLine(v: Variant, l: CartItem, total: real): OrderItem
  {
    OrderItem(l.quantity, if v.Current? then l.price else total, l.productId)
  }

  /** One order line per listed cart line, in the same order. */
  function OrderLines(v: Variant, items: map<nat, CartItem>, ids: seq<nat>, total: real): (r: seq<OrderItem>)
    requires forall k :: 0 <= k < |ids| ==> ids[k] in items
    ensures |r| == |ids|
    ensures forall k :: 0 <= k < |ids| ==>
      r[k].quantity == items[ids[k]].quantity && r[k].productId == items[ids[k]].productId
    ensures forall k :: 0 <= k < |ids| ==> r[k].price == (if v.Current? then items[ids[k]].price else total)
    decreases |ids|
  {
    if ids == [] then []
    else OrderLines(v, items, ids[..|ids| - 1], total) + [OrderLine(v, items[ids[|ids| - 1]], total)]
  }

  function ItemAmount(i: OrderItem): real
  {
    i.quantity as real * i.price
  }

  /** Σ quantity × price over order lines. */
  function ItemsAmount(lines: seq<OrderItem>): real
  {
    if lines == [] then 0.0
    else ItemsAmount(lines[..|lines| - 1]) + ItemAmount(lines[|lines| - 1])
  }

  /** The current variant's order lines add up to the cart total before the discount. */
  lemma {:induction false} OrderLinesAmount(items: map<nat, CartItem>, ids: seq<nat>, total: real)
    requires forall k :: 0 <= k < |ids| ==> ids[k] in items
    ensures ItemsAmount(OrderLines(Current, items, ids, total)) == CartTotal(items, ids)
    decreases |ids|
  {
    if ids != [] {
      var l := items[ids[|ids| - 1]];
      OrderLinesAmount(items, ids[..|ids| - 1], total);
      LineAppended(Current, items, ids, total);
      CurrentLineAmount(l, total);
    }
  }

  /** The current variant's order line is worth what its cart line is worth. */
  lemma CurrentLineAmount(l: CartItem, total: real)
    ensures ItemAmount(OrderLine(Current, l, total)) == LineAmount(l)
  {
  }

  /** The last cart line adds the amount of its order line. */
  lemma LineAppended(v: Variant, items: map<nat, CartItem>, ids: seq<nat>, total: real)
    requires ids != [] && forall k :: 0 <= k < |ids| ==> ids[k] in items
    ensures ItemsAmount(OrderLines(v, items, ids, total))
            == ItemsAmount(OrderLines(v, items, ids[..|ids| - 1], total)) + ItemAmount(OrderLine(v, items[ids[|ids| - 1]], total))
  {
    var prefix := ids[..|ids| - 1];
    var lines := OrderLines(v, items, ids, total);
    assert lines[..|lines| - 1] == OrderLines(v, items, prefix, total);
  }

  /** One cart line of two units at 50.0: the order total is 100.0, yet the
      older variant's order line states a price of 100.0 per unit, 200.0 in all. */
  lemma LegacyLinesOvercharge()
    ensures var items := map[0 := CartItem(0, 0, 2, 50.0)];
            var total := CartTotal(items, [0]);
            && total == 100.0
            && ItemsAmount(OrderLines(Legacy, items, [0], total)) == 200.0
            && ItemsAmount(OrderLines(Current, items, [0], total)) == total
  {
    var items := map[0 := CartItem(0, 0, 2, 50.0)];
    assert [0][..0] == [];
    assert CartTotal(items, [0]) == 100.0;
    var legacy := OrderLines(Legacy, items, [0], 100.0);
    var current := OrderLines(Current, items, [0], 100.0);
    assert legacy == [OrderItem(2, 100.0, 0)];
    assert current == [OrderItem(2, 50.0, 0)];
    assert legacy[..0] == [] && current[..0] == [];
  }

  // ----- Stock -----

  /** One cart line takes its quantity off its product's stock, in Java `int`
      arithmetic and with no check that the stock stays non-negative. */
  function TakeStock(products: Table<Product>, line: CartItem): (r: Table<Product>)
    requires line.productId in products.rows
    ensures r.next == products.next
    ensures forall p :: p in r.rows <==> p in products.rows
  {
    var product := products.rows[line.productId];
    Put(products, line.productId, product.(quantity := Wrap(product.quantity - line.quantity)))
  }

  /** The product table after each listed cart line has taken its stock. */
  function Decremented(products: Table<Product>, items: map<nat, CartItem>, ids: seq<nat>): (r: Table<Product>)
    requires forall k :: 0 <= k < |ids| ==> ids[k] in items && items[ids[k]].productId in products.rows
    ensures r.next == products.next
    ensures forall p :: p in r.rows <==> p in products.rows
    decreases |ids|
  {
    if ids == [] then products
    else TakeStock(Decremented(products, items, ids[..|ids| - 1]), items[ids[|ids| - 1]])
  }

  /** Σ quantity over the listed cart lines for product `pid`. */
  function OrderedUnits(items: map<nat, CartItem>, ids: seq<nat>, pid: nat): int
    requires forall k :: 0 <= k < |ids| ==> ids[k] in items
    decreases |ids|
  {
    if ids == [] then 0
    else
      var line := items[ids[|ids| - 1]];
      OrderedUnits(items, ids[..|ids| - 1], pid) + (if line.productId == pid then line.quantity else 0)
  }

  /** Each product's stock drops by exactly the units ordered of it (wrapping
      like a Java `int`); a product in none of the lines keeps its stock. */
  lemma {:induction false} DecrementedStock(products: Table<Product>, items: map<nat, CartItem>, ids: seq<nat>, pid: nat)
    requires forall k :: 0 <= k < |ids| ==> ids[k] in items && items[ids[k]].productId in products.rows
    requires pid in products.rows
    ensures Decremented(products, items, ids).rows[pid].quantity
            == Wrap(products.rows[pid].quantity - OrderedUnits(items, ids, pid))
    decreases |ids|
  {
    if ids != [] {
      var prefix := ids[..|ids| - 1];
      DecrementedStock(products, items, prefix, pid);
      TakeStockStep(Decremented(products, items, prefix), items[ids[|ids| - 1]], pid, products.rows[pid].quantity,
                    OrderedUnits(items, prefix, pid), OrderedUnits(items, ids, pid));
    }
  }

  /** One more line: the stock of `pid` has dropped by the units of `pid` taken so far. */
  lemma TakeStockStep(before: Table<Product>, line: CartItem, pid: nat, start: int, taken: int, taken': int)
    requires line.productId in before.rows && pid in before.rows
    requires before.rows[pid].quantity == Wrap(start - taken)
    requires taken' == taken + if line.productId == pid then line.quantity else 0
    ensures TakeStock(before, line).rows[pid].quantity == Wrap(start - taken')
  {
    if line.productId == pid {
      WrapSubStep(before.rows[pid].quantity, start - taken, line.quantity, start - taken');
    } else {
      assert start - taken == start - taken';
    }
  }

  // ----- The stored records -----

  function InitialStatus(v: Variant): DeliveryStatus
  {
    if v.Current? then Processing else Pending
  }

  /** The payment recorded when the gateway answered: the current variant
      records a completed credit-card payment, the older one a pending UPI payment. */
  function PaymentFor(v: Variant, orderId: nat, gatewayId: string, total: real, today: Day): Payment
  {
    if v.Current? then Payment(orderId, CreditCard, PaymentCompleted, gatewayId, total, today)
    else Payment(orderId, Upi, PaymentPending, gatewayId, total, today)
  }

  /** The order as stored once checkout has written its lines. */
  function PlacedOrder(v: Variant, total: real, userId: nat, today: Day, items: map<nat, CartItem>, lines: seq<nat>): (o: Order)
    requires forall k :: 0 <= k < |lines| ==> lines[k] in items
    ensures o.totalAmt == total && o.userId == userId && o.couponId == None
    ensures o.orderDate == today && o.deliveryDate == today + DELIVERY_LEAD_DAYS
    ensures o.deliveryStatus == (if v.Current? then Processing else Pending)
    ensures |o.items| == |lines|
  {
    NewOrder(total, today, InitialStatus(v), userId, today).(items := OrderLines(v, items, lines, total))
  }

  /** Checkout from the tables `s`: the tables afterwards and the outcome.
      An unknown user fails and changes nothing; otherwise the user's cart is
      created when missing and the order is placed from it. */
  function CheckoutOutcome(v: Variant, s: Shop, userId: nat, couponId: Option<nat>, gateway: GatewayOutcome, today: Day)
    : (Shop, Result<Placed>)
    requires OneCartPerUser(s.carts) && LinesReferenced(s.cartItems, s.carts, s.products)
  {
    if userId !in s.users.rows then (s, Err(NotFound("invalid user id!!!")))
    else
      var (carts, cartId) := EnsureCart(s.carts, userId);
      PlaceFromCart(v, s.(carts := carts), userId, cartId, couponId, gateway, today)
  }

  /** Placing the order from cart `cartId`: an empty cart or an unknown
      coupon fails and changes nothing; otherwise the order is placed from the
      cart's lines at the price. */
  function PlaceFromCart(v: Variant, s: Shop, userId: nat, cartId: nat, couponId: Option<nat>, gateway: GatewayOutcome, today: Day)
    : (Shop, Result<Placed>)
    requires LinesReferenced(s.cartItems, s.carts, s.products)
  {
    var price := Price(s.cartItems, cartId, s.coupons, couponId);
    if price.Err? then (s, Err(price.error))
    else
      LinesOfReferenced(s.cartItems, s.carts, s.products, cartId);
      (Placement(v, s, userId, LinesOf(s.cartItems, cartId), price.value, gateway, today),
       Ok(Placed(s.orders.next, price.value)))
  }

  /** The tables after an order at `total` is placed from the cart lines
      `lines`: the order, with one line per cart line, is stored under the
      next order id; the payment is stored when the gateway answered; each
      line takes its quantity off its product's stock; the lines are deleted. */
  function Placement(v: Variant, s: Shop, userId: nat, lines: seq<nat>, total: real, gateway: GatewayOutcome, today: Day): Shop
    requires forall k :: 0 <= k < |lines| ==> lines[k] in s.cartItems.rows && s.cartItems.rows[lines[k]].productId in s.products.rows
  {
    var oid := s.orders.next;
    Shop(s.users, s.carts,
         Without(s.cartItems, lines),
         Decremented(s.products, s.cartItems.rows, lines),
         s.coupons,
         Insert(s.orders, PlacedOrder(v, total, userId, today, s.cartItems.rows, lines)),
         if gateway.GatewayOk? then Insert(s.payments, PaymentFor(v, oid, gateway.id, total, today)) else s.payments)
  }

  /** A checkout whose price is known places the order from the cart's lines. */
  lemma PlaceFromCartPlaces(v: Variant, s: Shop, userId: nat, cartId: nat, couponId: Option<nat>, gateway: GatewayOutcome, today: Day)
    requires LinesReferenced(s.cartItems, s.carts, s.products)
    requires Price(s.cartItems, cartId, s.coupons, couponId).Ok?
    ensures var total := Price(s.cartItems, cartId, s.coupons, couponId).value;
            PlaceFromCart(v, s, userId, cartId, couponId, gateway, today)
            == (Placement(v, s, userId, LinesOf(s.cartItems, cartId), total, gateway, today), Ok(Placed(s.orders.next, total)))
  {
  }

  // ----- Integrity kept by the checkout steps -----

  lemma OrderLineKeepsOwner(orders: Table<Order>, payments: Table<Payment>, users: Table<User>, oid: nat, o: Order)
    requires OrdersReferenced(orders, payments, users)
    requires oid in orders.rows && o.userId == orders.rows[oid].userId
    ensures OrdersReferenced(Put(orders, oid, o), payments, users)
  {
  }

  /** The lines of a cart point at stored products. */
  lemma LinesOfReferenced(items: Table<CartItem>, carts: Table<Cart>, products: Table<Product>, cartId: nat)
    requires LinesReferenced(items, carts, products)
    ensures var lines := LinesOf(items, cartId);
            forall k :: 0 <= k < |lines| ==> lines[k] in items.rows && items.rows[lines[k]].productId in products.rows
  {
  }

  /** Taking stock changes only quantities, so every reference to a product
      and from a product still holds. */
  lemma {:induction false} DecrementedKeepsReferences(products: Table<Product>, items: Table<CartItem>, carts: Table<Cart>,
                                                      categories: Table<Category>, users: Table<User>, lines: seq<nat>)
    requires LinesReferenced(items, carts, products) && CatalogueReferenced(products, categories, users)
    requires forall k :: 0 <= k < |lines| ==> lines[k] in items.rows && items.rows[lines[k]].productId in products.rows
    ensures LinesReferenced(items, carts, Decremented(products, items.rows, lines))
    ensures CatalogueReferenced(Decremented(products, items.rows, lines), categories, users)
    decreases |lines|
  {
    if lines != [] {
      var prefix := lines[..|lines| - 1];
      DecrementedKeepsReferences(products, items, carts, categories, users, prefix);
    }
  }

  /** Placing an order keeps every integrity constraint on the tables it writes. */
  lemma PlacementKeepsIntegrity(v: Variant, s: Shop, categories: Table<Category>, userId: nat, lines: seq<nat>,
                                total: real, gateway: GatewayOutcome, today: Day)
    requires OneLinePerProduct(s.cartItems) && LinesReferenced(s.cartItems, s.carts, s.products)
    requires CatalogueReferenced(s.products, categories, s.users) && OrdersReferenced(s.orders, s.payments, s.users)
    requires userId in s.users.rows
    requires forall k :: 0 <= k < |lines| ==> lines[k] in s.cartItems.rows && s.cartItems.rows[lines[k]].productId in s.products.rows
    ensures var s' := Placement(v, s, userId, lines, total, gateway, today);
            && OrdersReferenced(s'.orders, s'.payments, s.users)
            && OneLinePerProduct(s'.cartItems) && LinesReferenced(s'.cartItems, s.carts, s'.products)
            && CatalogueReferenced(s'.products, categories, s.users)
  {
    var s' := Placement(v, s, userId, lines, total, gateway, today);
    DecrementedKeepsReferences(s.products, s.cartItems, s.carts, categories, s.users, lines);
    FewerLinesKeepIntegrity(s.cartItems, s'.cartItems, s.carts, s'.products);
  }

  /** One more cart line adds one order line. */
  lemma PlacedOrderStep(v: Variant, total: real, userId: nat, today: Day, items: map<nat, CartItem>, lines: seq<nat>, i: nat)
    requires i < |lines| && forall k :: 0 <= k < |lines| ==> lines[k] in items
    ensures var o := PlacedOrder(v, total, userId, today, items, lines[..i]);
            PlacedOrder(v, total, userId, today, items, lines[..i + 1])
            == o.(items := o.items + [OrderLine(v, items[lines[i]], total)])
  {
    assert lines[..i + 1][..i] == lines[..i];
  }

  /** One more cart line takes its quantity off its product's stock. */
  lemma DecrementedStep(products: Table<Product>, items: map<nat, CartItem>, lines: seq<nat>, i: nat)
    requires i < |lines|
    requires forall k :: 0 <= k < |lines| ==> lines[k] in items && items[lines[k]].productId in products.rows
    ensures Decremented(products, items, lines[..i + 1])
            == TakeStock(Decremented(products, items, lines[..i]), items[lines[i]])
  {
    assert lines[..i + 1][..i] == lines[..i];
  }

  // ----- Checkout -----

  /** The loop over the cart's lines: each becomes a line of the order and
      takes its quantity off its product's stock. The service runs in one
      transaction, so the rows it saves on the way are written once the loop
      is done. */
  method TakeOrderLines(v: Variant, total: real, userId: nat, today: Day, items: map<nat, CartItem>, lines: seq<nat>,
                        products: Table<Product>)
    returns (order: Order, stock: Table<Product>)
    requires forall k :: 0 <= k < |lines| ==> lines[k] in items && items[lines[k]].productId in products.rows
    ensures order == PlacedOrder(v, total, userId, today, items, lines)
    ensures stock == Decremented(products, items, lines)
  {
    order := NewOrder(total, today, InitialStatus(v), userId, today);
    stock := products;
    var i := 0;
    assert lines[..0] == [];
    while i < |lines|
      invariant 0 <= i <= |lines|
      invariant order == PlacedOrder(v, total, userId, today, items, lines[..i])
      invariant stock == Decremented(products, items, lines[..i])
    {
      var line := items[lines[i]];
      PlacedOrderStep(v, total, userId, today, items, lines, i);
      order := order.(items := order.items + [OrderLine(v, line, total)]);
      DecrementedStep(products, items, lines, i);
      stock := TakeStock(stock, line);
      i := i + 1;
    }
    assert lines[..|lines|] == lines;
  }

  /** The writes of checkout once its checks passed. The service runs in one
      transaction, so the writes are committed together: the order row,
      saved before the payment and then once per line, is saved once with
      all its lines. */
  method Commit(db: Database, v: Variant, userId: nat, total: real, gateway: GatewayOutcome, today: Day, lines: seq<nat>)
    requires db.Valid() && userId in db.users.rows
    requires forall k :: 0 <= k < |lines| ==> lines[k] in db.cartItems.rows && db.cartItems.rows[lines[k]].productId in db.products.rows
    modifies db`cartItems, db`products, db`orders, db`payments
    ensures db.Valid()
    ensures ShopOf(db) == Placement(v, old(ShopOf(db)), userId, lines, total, gateway, today)
  {
    var items, products := db.cartItems, db.products;
    var order, stock := TakeOrderLines(v, total, userId, today, items.rows, lines, products);
    var oid := db.orders.next;
    var payments := if gateway.GatewayOk? then Insert(db.payments, PaymentFor(v, oid, gateway.id, total, today))
                    else db.payments;
    PlacementKeepsIntegrity(v, ShopOf(db), db.categories, userId, lines, total, gateway, today);
    db.CommitCheckout(Insert(db.orders, order), payments, stock, Without(items, lines));
  }

  /** Steps 3 to 8 of checkout, once the user's cart `cartId` is known. */
  method PlaceOrderFromCart(db: Database, v: Variant, userId: nat, cartId: nat, couponId: Option<nat>,
                            gateway: GatewayOutcome, today: Day)
    returns (r: Result<Placed>)
    requires db.Valid() && userId in db.users.rows
    modifies db`cartItems, db`products, db`orders, db`payments
    ensures db.Valid()
    ensures (ShopOf(db), r) == PlaceFromCart(v, old(ShopOf(db)), userId, cartId, couponId, gateway, today)
  {
    var price := Price(db.cartItems, cartId, db.coupons, couponId);
    if price.Err? {
      return Err(price.error);
    }
    var lines := LinesOf(db.cartItems, cartId);
    LinesOfReferenced(db.cartItems, db.carts, db.products, cartId);
    r := Ok(Placed(db.orders.next, price.value));
    ghost var s := ShopOf(db);
    PlaceFromCartPlaces(v, s, userId, cartId, couponId, gateway, today);
    Commit(db, v, userId, price.value, gateway, today, lines);
  }

  /** The steps both `placeOrder` variants run. `addressId` is not used by either. */
  method Checkout(db: Database, v: Variant, userId: nat, couponId: Option<nat>, gateway: GatewayOutcome, today: Day)
    returns (r: Result<Placed>)
    requires db.Valid()
    modifies db`carts, db`cartItems, db`products, db`orders, db`payments
    ensures db.Valid()
    ensures (ShopOf(db), r) == CheckoutOutcome(v, old(ShopOf(db)), userId, couponId, gateway, today)
  {
    var cart := GetCartByUserId(db, userId);
    if cart.Err? {
      return Err(cart.error);
    }
    r := PlaceOrderFromCart(db, v, userId, cart.value, couponId, gateway, today);
  }

  /** `placeOrder` of the current service. When the gateway fails, every
      write still happens and the call then ends on the null gateway order. */
  method PlaceOrder(db: Database, userId: nat, addressId: nat, couponId: Option<nat>, gateway: GatewayOutcome, today: Day)
    returns (r: Result<PaymentSummary>)
    requires db.Valid()
    modifies db`carts, db`cartItems, db`products, db`orders, db`payments
    ensures db.Valid()
    ensures var (s', placed) := CheckoutOutcome(Current, old(ShopOf(db)), userId, couponId, gateway, today);
            && ShopOf(db) == s'
            && (placed.Err? ==> r == Err(placed.error))
            && (placed.Ok? && gateway.GatewayOk? ==>
                  r == Ok(PaymentSummary(gateway.id, placed.value.total, CURRENCY, placed.value.orderId)))
            && (placed.Ok? && gateway.GatewayFail? ==> r == Err(NullDereference))
  {
    var placed := Checkout(db, Current, userId, couponId, gateway, today);
    if placed.Err? {
      return Err(placed.error);
    }
    match gateway
    case GatewayOk(id) =>
      r := Ok(PaymentSummary(id, placed.value.total, CURRENCY, placed.value.orderId));
    case GatewayFail =>
      r := Err(NullDereference);
  }

  /** `placeOrder` of the older service: the same steps, a failed gateway is
      passed over, and the answer is the saved order as constructed (its own
      item list is still empty: the lines were saved separately). */
  method LegacyPlaceOrder(db: Database, userId: nat, addressId: nat, couponId: Option<nat>, gateway: GatewayOutcome, today: Day)
    returns (r: Result<(nat, Order)>)
    requires db.Valid()
    modifies db`carts, db`cartItems, db`products, db`orders, db`payments
    ensures db.Valid()
    ensures var (s', placed) := CheckoutOutcome(Legacy, old(ShopOf(db)), userId, couponId, gateway, today);
            && ShopOf(db) == s'
            && (placed.Err? ==> r == Err(placed.error))
            && (placed.Ok? ==> r == Ok((placed.value.orderId, NewOrder(placed.value.total, today, Pending, userId, today))))
  {
    var placed := Checkout(db, Legacy, userId, couponId, gateway, today);
    if placed.Err? {
      return Err(placed.error);
    }
    r := Ok((placed.value.orderId, NewOrder(placed.value.total, today, Pending, userId, today)));
  }

  // ----- What checkout does, over the tables -----

  /** A checkout that fails changes no table except that the user's cart may
      have been created; an unknown user changes nothing at all. */
  lemma CheckoutFailureKeepsTables(v: Variant, s: Shop, userId: nat, couponId: Option<nat>, gateway: GatewayOutcome, today: Day)
    requires OneCartPerUser(s.carts) && LinesReferenced(s.cartItems, s.carts, s.products)
    ensures var (s', r) := CheckoutOutcome(v, s, userId, couponId, gateway, today);
            && (userId !in s.users.rows ==> r == Err(NotFound("invalid user id!!!")) && s' == s)
            && (r.Err? ==> s' == s.(carts := s'.carts))
            && (r.Err? && userId in s.users.rows ==> s'.carts == EnsureCart(s.carts, userId).0)
  {
  }

  /** A known user with no cart lines is refused with "cart is empty". */
  lemma CheckoutRejectsEmptyCart(v: Variant, s: Shop, userId: nat, couponId: Option<nat>, gateway: GatewayOutcome, today: Day)
    requires OneCartPerUser(s.carts) && LinesReferenced(s.cartItems, s.carts, s.products)
    requires userId in s.users.rows
    requires forall l :: l in s.cartItems.rows ==> s.carts.rows[s.cartItems.rows[l].cartId].userId != userId
    ensures CheckoutOutcome(v, s, userId, couponId, gateway, today).1 == Err(NotFound("cart is empty"))
  {
    var (carts, cartId) := EnsureCart(s.carts, userId);
    assert LinesOf(s.cartItems, cartId) == [] by {
      forall l | l in s.cartItems.rows ensures s.cartItems.rows[l].cartId != cartId {
        var c := s.cartItems.rows[l].cartId;
        assert carts.rows[c] == s.carts.rows[c];
      }
    }
  }

  /** A checkout that succeeds went through a known user's existing cart with
      lines and a coupon rule that did not fail, and its tables are those of
      placing the order from that cart's lines at the discounted total. */
  lemma CheckoutOpens(v: Variant, s: Shop, userId: nat, couponId: Option<nat>, gateway: GatewayOutcome, today: Day)
    requires OneCartPerUser(s.carts) && LinesReferenced(s.cartItems, s.carts, s.products)
    requires CheckoutOutcome(v, s, userId, couponId, gateway, today).1.Ok?
    ensures var cartId := EnsureCart(s.carts, userId).1;
            var lines := LinesOf(s.cartItems, cartId);
            var placed := CheckoutOutcome(v, s, userId, couponId, gateway, today).1.value;
            && userId in s.users.rows && cartId in s.carts.rows && lines != []
            && ApplyCoupon(s.coupons, couponId, CartTotal(s.cartItems.rows, lines)) == Ok(placed.total)
            && placed.orderId == s.orders.next
            && (forall k :: 0 <= k < |lines| ==> lines[k] in s.cartItems.rows && s.cartItems.rows[lines[k]].productId in s.products.rows)
            && CheckoutOutcome(v, s, userId, couponId, gateway, today).0 == Placement(v, s, userId, lines, placed.total, gateway, today)
  {
    var (carts, cartId) := EnsureCart(s.carts, userId);
    if CartOf(s.carts, userId).Missing? {
      NewCartHasNoLines(s.carts, s.cartItems, s.products, userId);
    }
    assert carts == s.carts;
    assert s.(carts := carts) == s;
    LinesOfReferenced(s.cartItems, s.carts, s.products, cartId);
  }

  /** A successful checkout stores one new order, under the next id, at the
      discounted total, for the user, with one line per cart line. */
  lemma CheckoutStoresOrder(v: Variant, s: Shop, userId: nat, couponId: Option<nat>, gateway: GatewayOutcome, today: Day)
    requires OneCartPerUser(s.carts) && LinesReferenced(s.cartItems, s.carts, s.products)
    requires CheckoutOutcome(v, s, userId, couponId, gateway, today).1.Ok?
    ensures var (s', r) := CheckoutOutcome(v, s, userId, couponId, gateway, today);
            var lines := LinesOf(s.cartItems, EnsureCart(s.carts, userId).1);
            && r.value.orderId !in s.orders.rows
            && s'.orders.rows == s.orders.rows[r.value.orderId := PlacedOrder(v, r.value.total, userId, today, s.cartItems.rows, lines)]
            && s'.users == s.users && s'.carts == s.carts && s'.coupons == s.coupons
  {
    CheckoutOpens(v, s, userId, couponId, gateway, today);
  }

  /** A successful checkout records a payment exactly when the gateway answered. */
  lemma CheckoutRecordsPayment(v: Variant, s: Shop, userId: nat, couponId: Option<nat>, gateway: GatewayOutcome, today: Day)
    requires OneCartPerUser(s.carts) && LinesReferenced(s.cartItems, s.carts, s.products)
    requires CheckoutOutcome(v, s, userId, couponId, gateway, today).1.Ok?
    ensures var (s', r) := CheckoutOutcome(v, s, userId, couponId, gateway, today);
            && (gateway.GatewayFail? ==> s'.payments == s.payments)
            && (gateway.GatewayOk? ==>
                  s'.payments.rows == s.payments.rows[s.payments.next := PaymentFor(v, r.value.orderId, gateway.id, r.value.total, today)])
  {
    CheckoutOpens(v, s, userId, couponId, gateway, today);
  }

  /** A successful checkout deletes exactly the lines of the user's cart. */
  lemma CheckoutEmptiesCart(v: Variant, s: Shop, userId: nat, couponId: Option<nat>, gateway: GatewayOutcome, today: Day)
    requires OneCartPerUser(s.carts) && LinesReferenced(s.cartItems, s.carts, s.products)
    requires CheckoutOutcome(v, s, userId, couponId, gateway, today).1.Ok?
    ensures var s' := CheckoutOutcome(v, s, userId, couponId, gateway, today).0;
            var cartId := EnsureCart(s.carts, userId).1;
            && LinesOf(s'.cartItems, cartId) == []
            && forall l :: l in s.cartItems.rows && s.cartItems.rows[l].cartId != cartId ==>
                 l in s'.cartItems.rows && s'.cartItems.rows[l] == s.cartItems.rows[l]
  {
    CheckoutOpens(v, s, userId, couponId, gateway, today);
  }

  /** A successful checkout takes off the products' stock the cart lines it
      ordered, as `DecrementedStock` states product by product. */
  lemma CheckoutTakesStock(v: Variant, s: Shop, userId: nat, couponId: Option<nat>, gateway: GatewayOutcome, today: Day)
    requires OneCartPerUser(s.carts) && LinesReferenced(s.cartItems, s.carts, s.products)
    requires CheckoutOutcome(v, s, userId, couponId, gateway, today).1.Ok?
    ensures var s' := CheckoutOutcome(v, s, userId, couponId, gateway, today).0;
            var lines := LinesOf(s.cartItems, EnsureCart(s.carts, userId).1);
            && (forall k :: 0 <= k < |lines| ==> lines[k] in s.cartItems.rows && s.cartItems.rows[lines[k]].productId in s.products.rows)
            && s'.products == Decremented(s.products, s.cartItems.rows, lines)
  {
    CheckoutOpens(v, s, userId, couponId, gateway, today);
  }

  /** The stored order's lines copy the cart lines' products and quantities;
      the current variant's lines are worth the cart's total before the
      discount, while the older variant gives every line the order total as price. */
  lemma PlacedOrderLines(v: Variant, total: real, userId: nat, today: Day, items: map<nat, CartItem>, lines: seq<nat>)
    requires forall k :: 0 <= k < |lines| ==> lines[k] in items
    ensures var o := PlacedOrder(v, total, userId, today, items, lines);
            && (forall k :: 0 <= k < |lines| ==>
                  o.items[k].productId == items[lines[k]].productId && o.items[k].quantity == items[lines[k]].quantity)
            && (v.Current? ==> ItemsAmount(o.items) == CartTotal(items, lines))
            && (v.Legacy? ==> forall k :: 0 <= k < |o.items| ==> o.items[k].price == total)
  {
    if v.Current? {
      OrderLinesAmount(items, lines, total);
    }
  }

  // ----- Queries -----

  /** Whether `ids` lists orders latest first. */
  ghost predicate LatestFirst(rows: map<nat, Order>, ids: seq<nat>)
  {
    forall j, k :: 0 <= j < k < |ids| && ids[j] in rows && ids[k] in rows ==>
      rows[ids[j]].orderDate >= rows[ids[k]].orderDate
  }

  /** Puts `id` into a list of orders, ahead of the first order not later than it. */
  function InsertByDate(rows: map<nat, Order>, id: nat, sorted: seq<nat>): (r: seq<nat>)
    requires id in rows && forall k :: 0 <= k < |sorted| ==> sorted[k] in rows
    ensures |r| == |sorted| + 1 && forall k :: 0 <= k < |r| ==> r[k] in rows
  {
    if sorted == [] then [id]
    else if rows[id].orderDate >= rows[sorted[0]].orderDate then [id] + sorted
    else [sorted[0]] + InsertByDate(rows, id, sorted[1..])
  }

  /** Inserting adds `id` once and keeps every other entry. */
  lemma {:induction false} InsertByDatePermutes(rows: map<nat, Order>, id: nat, sorted: seq<nat>)
    requires id in rows && forall k :: 0 <= k < |sorted| ==> sorted[k] in rows
    ensures multiset(InsertByDate(rows, id, sorted)) == multiset(sorted) + multiset{id}
  {
    if sorted != [] && rows[id].orderDate < rows[sorted[0]].orderDate {
      InsertByDatePermutes(rows, id, sorted[1..]);
      assert sorted == [sorted[0]] + sorted[1..];
    }
  }

  /** An order no earlier than every order of a latest-first list may head it. */
  lemma PrependLatest(rows: map<nat, Order>, x: nat, s: seq<nat>)
    requires x in rows && forall k :: 0 <= k < |s| ==> s[k] in rows
    requires LatestFirst(rows, s)
    requires forall k :: 0 <= k < |s| ==> rows[x].orderDate >= rows[s[k]].orderDate
    ensures LatestFirst(rows, [x] + s)
  {
    var r := [x] + s;
    forall j, k | 0 <= j < k < |r| && r[j] in rows && r[k] in rows
      ensures rows[r[j]].orderDate >= rows[r[k]].orderDate
    {
      assert r[k] == s[k - 1];
      if j > 0 {
        assert r[j] == s[j - 1];
      }
    }
  }

  /** Inserting into a latest-first list keeps it latest first. */
  lemma {:induction false} InsertByDateSorted(rows: map<nat, Order>, id: nat, sorted: seq<nat>)
    requires id in rows && forall k :: 0 <= k < |sorted| ==> sorted[k] in rows
    requires LatestFirst(rows, sorted)
    ensures LatestFirst(rows, InsertByDate(rows, id, sorted))
  {
    if sorted == [] {
    } else if rows[id].orderDate >= rows[sorted[0]].orderDate {
      forall k | 0 <= k < |sorted| ensures rows[id].orderDate >= rows[sorted[k]].orderDate {
        if k > 0 {
          assert rows[sorted[0]].orderDate >= rows[sorted[k]].orderDate;
        }
      }
      PrependLatest(rows, id, sorted);
    } else {
      var tail := sorted[1..];
      var rest := InsertByDate(rows, id, tail);
      InsertByDateSorted(rows, id, tail);
      InsertByDatePermutes(rows, id, tail);
      forall k | 0 <= k < |rest|
        ensures rows[sorted[0]].orderDate >= rows[rest[k]].orderDate
      {
        assert rest[k] in multiset(rest);
        if rest[k] != id {
          assert rest[k] in multiset(tail);
          var j :| 0 <= j < |tail| && tail[j] == rest[k];
          assert sorted[j + 1] == rest[k];
        }
      }
      PrependLatest(rows, sorted[0], rest);
    }
  }

  /** Orders latest first: an insertion sort on the order date. */
  function SortByDate(rows: map<nat, Order>, ids: seq<nat>): (r: seq<nat>)
    requires forall k :: 0 <= k < |ids| ==> ids[k] in rows
    ensures |r| == |ids| && forall k :: 0 <= k < |r| ==> r[k] in rows
  {
    if ids == [] then [] else InsertByDate(rows, ids[0], SortByDate(rows, ids[1..]))
  }

  /** The sort keeps exactly the given orders and lists them latest first. */
  lemma {:induction false} SortByDateSpec(rows: map<nat, Order>, ids: seq<nat>)
    requires forall k :: 0 <= k < |ids| ==> ids[k] in rows
    ensures multiset(SortByDate(rows, ids)) == multiset(ids)
    ensures LatestFirst(rows, SortByDate(rows, ids))
  {
    if ids != [] {
      SortByDateSpec(rows, ids[1..]);
      var rest := SortByDate(rows, ids[1..]);
      InsertByDatePermutes(rows, ids[0], rest);
      InsertByDateSorted(rows, ids[0], rest);
      assert ids == [ids[0]] + ids[1..];
    }
  }

  /** `findByUserIdOrderByOrderDateDesc`: the ids of exactly the user's
      orders, each once, latest first. */
  function OrdersByUser(orders: Table<Order>, userId: nat): (r: seq<nat>)
    ensures forall id :: id in r <==> id in orders.rows && orders.rows[id].userId == userId
    ensures forall id :: multiset(r)[id] <= 1
    ensures LatestFirst(orders.rows, r)
  {
    var mine := Select(orders, (o: Order) => o.userId == userId);
    SortByDateSpec(orders.rows, mine);
    var r := SortByDate(orders.rows, mine);
    assert forall id :: id in r <==> id in mine by {
      forall id ensures id in r <==> id in mine {
        assert id in r <==> id in multiset(r);
        assert id in mine <==> id in multiset(mine);
      }
    }
    DistinctOnce(mine);
    r
  }

  /** A strictly increasing list holds each element once. */
  lemma {:induction false} DistinctOnce(s: seq<nat>)
    requires forall j, k :: 0 <= j < k < |s| ==> s[j] < s[k]
    ensures forall id :: multiset(s)[id] <= 1
  {
    if s != [] {
      DistinctOnce(s[1..]);
      assert s == [s[0]] + s[1..];
      assert s[0] !in s[1..];
    }
  }

  /** `getOrderById`. */
  function GetOrderById(orders: Table<Order>, id: nat): (r: Result<Order>)
    ensures r.Ok? <==> id in orders.rows
    ensures r.Ok? ==> r.value == orders.rows[id]
    ensures r.Err? ==> r.error == NotFound("invalid order id!!!")
  {
    if id in orders.rows then Ok(orders.rows[id]) else Err(NotFound("invalid order id!!!"))
  }

  /** `orderUpdate`: any named status may replace any other; an unknown id
      or a name that is no status fails without change. */
  method OrderUpdate(db: Database, id: nat, status: string) returns (r: Result<string>)
    requires db.Valid()
    modifies db`orders
    ensures db.Valid()
    ensures id !in old(db.orders.rows) ==> r == Err(NotFound("invalid order id!!!")) && db.orders == old(db.orders)
    ensures id in old(db.orders.rows) && ParseDeliveryStatus(status).None? ==>
      r == Err(IllegalArgument) && db.orders == old(db.orders)
    ensures id in old(db.orders.rows) && ParseDeliveryStatus(status).Some? ==>
      && r == Ok("status updated!!!")
      && db.orders == Put(old(db.orders), id, old(db.orders.rows[id]).(deliveryStatus := ParseDeliveryStatus(status).value))
  {
    if id !in db.orders.rows {
      return Err(NotFound("invalid order id!!!"));
    }
    var order := db.orders.rows[id];
    var parsed := ParseDeliveryStatus(status);
    if parsed.None? {
      return Err(IllegalArgument);
    }
    OrderLineKeepsOwner(db.orders, db.payments, db.users, id, order.(deliveryStatus := parsed.value));
    db.SetOrders(Put(db.orders, id, order.(deliveryStatus := parsed.value)));
    r := Ok("status updated!!!");
  }
}
