/** The persistent records of the shop. A `LocalDate` is a day number, money
    (a Java `double`) is an exact `real`, and a reference to another entity is
    that entity's id. */
module Entities {
  import opened Base

  /** A `LocalDate` as a day number: `plusDays(d)` is `+ d`. */
  type Day = int

  /** The role travels as the upper-cased text the user supplied. */
  datatype User = User(
    name: string,
    email: string,
    password: string,           // always the encoder's output
    phone: string,
    role: string,
    addressId: Option<nat>)     // myAddress, when the user has saved one

  /** One cart per user; its lines are CartItem rows pointing at it. */
  datatype Cart = Cart(userId: nat)

  /** A line of a cart: the product, how many, and the unit price last copied from the product. */
  datatype CartItem = CartItem(cartId: nat, productId: nat, quantity: Int32, price: real)

  datatype StockStatus = InStock | OutOfStock

  datatype Product = Product(
    name: string,
    description: string,
    quantity: Int32,            // units in stock
    price: real,
    image: string,
    categoryId: nat,
    vendorId: nat,
    ecoRating: Int32,
    active: bool,
    stockStatus: StockStatus)

  datatype Category = Category(name: string, description: string)

  /** A coupon; the window [validFrom, validUntil] is inclusive at both ends. */
  datatype Coupon = Coupon(
    code: string,
    discountValue: real,
    minOrderAmt: real,
    active: bool,
    validFrom: Day,
    validUntil: Day)

  datatype DeliveryStatus = Pending | Processing | Shipped | Delivered | Cancelled

  /** `DeliveryStatus.valueOf`: the constant with exactly this name, if any. */
  function ParseDeliveryStatus(s: string): (r: Option<DeliveryStatus>)
    ensures r.Some? <==> s in {"PENDING", "PROCESSING", "SHIPPED", "DELIVERED", "CANCELLED"}
  {
    if s == "PENDING" then Some(Pending)
    else if s == "PROCESSING" then Some(Processing)
    else if s == "SHIPPED" then Some(Shipped)
    else if s == "DELIVERED" then Some(Delivered)
    else if s == "CANCELLED" then Some(Cancelled)
    else None
  }

  /** A line of an order: how many of which product, and the price recorded for it. */
  datatype OrderItem = OrderItem(quantity: Int32, price: real, productId: nat)

  /** An order owns its items (cascade-all with orphan removal): they live inside it. */
  datatype Order = Order(
    totalAmt: real,
    orderDate: Day,
    deliveryStatus: DeliveryStatus,
    deliveryDate: Day,
    userId: nat,
    couponId: Option<nat>,
    items: seq<OrderItem>)

  const DELIVERY_LEAD_DAYS: int := 7

  /** The four-argument `Order` constructor. The delivery date is computed
      from the clock (`today`), not from `orderDate`; the item list starts
      empty and no coupon is set. */
  function NewOrder(totalAmt: real, orderDate: Day, status: DeliveryStatus, userId: nat, today: Day): (o: Order)
    ensures o.items == [] && o.couponId == None
    ensures o.deliveryDate - today == DELIVERY_LEAD_DAYS
    ensures o.totalAmt == totalAmt && o.orderDate == orderDate
    ensures o.deliveryStatus == status && o.userId == userId
  {
    Order(totalAmt, orderDate, status, today + DELIVERY_LEAD_DAYS, userId, None, [])
  }

  /** The delivery date does not depend on the order date passed in. */
  lemma DeliveryDateIgnoresOrderDate(t: real, d1: Day, d2: Day, s: DeliveryStatus, u: nat, today: Day)
    ensures NewOrder(t, d1, s, u, today).deliveryDate == NewOrder(t, d2, s, u, today).deliveryDate
    ensures d1 != d2 ==> NewOrder(t, d1, s, u, today) != NewOrder(t, d2, s, u, today)
  {
  }

  datatype PaymentMethod = CreditCard | DebitCard | Upi | NetBanking | Wallet | CashOnDelivery

  datatype PaymentStatus = PaymentPending | PaymentCompleted | PaymentFailed

  /** A payment record; `datetime` is kept at day granularity. */
  datatype Payment = Payment(
    orderId: nat,
    paymentMethod: PaymentMethod,
    status: PaymentStatus,
    transactionId: string,
    amount: real,
    datetime: Day)
}
