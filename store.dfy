/** The shop's database: one table per repository, the integrity the schema
    keeps between them, and the cart queries several services share. */
module Store {
  import opened Base
  import opened Tables
  import opened Entities

  /** Every cart belongs to a known user. */
  ghost predicate CartsOwned(carts: Table<Cart>, users: Table<User>)
  {
    forall c :: c in carts.rows ==> carts.rows[c].userId in users.rows
  }

  /** At most one cart per user. */
  ghost predicate OneCartPerUser(carts: Table<Cart>)
  {
    forall c, d :: c in carts.rows && d in carts.rows && carts.rows[c].userId == carts.rows[d].userId ==> c == d
  }

  /** Every cart line points at a stored cart and a stored product (foreign keys). */
  ghost predicate LinesReferenced(items: Table<CartItem>, carts: Table<Cart>, products: Table<Product>)
  {
    forall l :: l in items.rows ==> items.rows[l].cartId in carts.rows && items.rows[l].productId in products.rows
  }

  /** At most one line per (cart, product). */
  ghost predicate OneLinePerProduct(items: Table<CartItem>)
  {
    forall l, m ::
      l in items.rows && m in items.rows &&
      items.rows[l].cartId == items.rows[m].cartId && items.rows[l].productId == items.rows[m].productId
      ==> l == m
  }

  /** Every product points at a stored category and a stored vendor (foreign keys). */
  ghost predicate CatalogueReferenced(products: Table<Product>, categories: Table<Category>, users: Table<User>)
  {
    forall p :: p in products.rows ==> products.rows[p].categoryId in categories.rows && products.rows[p].vendorId in users.rows
  }

  /** Every order points at a stored user, every payment at a stored order (foreign keys). */
  ghost predicate OrdersReferenced(orders: Table<Order>, payments: Table<Payment>, users: Table<User>)
  {
    && (forall o :: o in orders.rows ==> orders.rows[o].userId in users.rows)
    && (forall p :: p in payments.rows ==> payments.rows[p].orderId in orders.rows)
  }

  datatype Shop = Shop(
    users: Table<User>,
    carts: Table<Cart>,
    cartItems: Table<CartItem>,
    products: Table<Product>,
    coupons: Table<Coupon>,
    orders: Table<Order>,
    payments: Table<Payment>)

  function ShopOf(db: Database): Shop
    reads db
  {
    Shop(db.users, db.carts, db.cartItems, db.products, db.coupons, db.orders, db.payments)
  }

  class Database {
    var users: Table<User>
    var carts: Table<Cart>
    var cartItems: Table<CartItem>
    var products: Table<Product>
    var categories: Table<Category>
    var coupons: Table<Coupon>
    var orders: Table<Order>
    var payments: Table<Payment>

    ghost predicate Valid()
      reads this
    {
      && CartsOwned(carts, users)
      && OneCartPerUser(carts)
      && LinesReferenced(cartItems, carts, products)
      && OneLinePerProduct(cartItems)
      && CatalogueReferenced(products, categories, users)
      && OrdersReferenced(orders, payments, users)
    }

    // Each repository write replaces one table by one that keeps the
    // integrity constraints involving that table.

    method SetUsers(users': Table<User>)
      requires Valid()
      requires CartsOwned(carts, users') && CatalogueReferenced(products, categories, users')
      requires OrdersReferenced(orders, payments, users')
      modifies this`users
      ensures Valid() && users == users'
    {
      users := users';
    }

    method SetCarts(carts': Table<Cart>)
      requires Valid()
      requires CartsOwned(carts', users) && OneCartPerUser(carts') && LinesReferenced(cartItems, carts', products)
      modifies this`carts
      ensures Valid() && carts == carts'
    {
      carts := carts';
    }

    method SetCartItems(items: Table<CartItem>)
      requires Valid()
      requires OneLinePerProduct(items) && LinesReferenced(items, carts, products)
      modifies this`cartItems
      ensures Valid() && cartItems == items
    {
      cartItems := items;
    }

    method SetProducts(products': Table<Product>)
      requires Valid()
      requires LinesReferenced(cartItems, carts, products') && CatalogueReferenced(products', categories, users)
      modifies this`products
      ensures Valid() && products == products'
    {
      products := products';
    }

    method SetCategories(categories': Table<Category>)
      requires Valid()
      requires CatalogueReferenced(products, categories', users)
      modifies this`categories
      ensures Valid() && categories == categories'
    {
      categories := categories';
    }

    method SetCoupons(coupons': Table<Coupon>)
      requires Valid()
      modifies this`coupons
      ensures Valid() && coupons == coupons'
    {
      coupons := coupons';
    }

    method SetOrders(orders': Table<Order>)
      requires Valid()
      requires OrdersReferenced(orders', payments, users)
      modifies this`orders
      ensures Valid() && orders == orders'
    {
      orders := orders';
    }

    method SetPayments(payments': Table<Payment>)
      requires Valid()
      requires OrdersReferenced(orders, payments', users)
      modifies this`payments
      ensures Valid() && payments == payments'
    {
      payments := payments';
    }

    /** The writes of a checkout, committed together at the end of its transaction. */
    method CommitCheckout(orders': Table<Order>, payments': Table<Payment>, products': Table<Product>, items: Table<CartItem>)
      requires Valid()
      requires OrdersReferenced(orders', payments', users)
      requires OneLinePerProduct(items) && LinesReferenced(items, carts, products')
      requires CatalogueReferenced(products', categories, users)
      modifies this`orders, this`payments, this`products, this`cartItems
      ensures Valid()
      ensures ShopOf(this) == Shop(old(users), old(carts), items, products', old(coupons), orders', payments')
    {
      orders, payments, products, cartItems := orders', payments', products', items;
    }

    constructor ()
      ensures Valid()
      ensures users.rows == map[] && carts.rows == map[] && cartItems.rows == map[]
      ensures products.rows == map[] && categories.rows == map[] && coupons.rows == map[]
      ensures orders.rows == map[] && payments.rows == map[]
    {
      users, carts, cartItems := Empty(), Empty(), Empty();
      products, categories, coupons := Empty(), Empty(), Empty();
      orders, payments := Empty(), Empty();
    }
  }

  /** `cartdao.findByUser(user)`. */
  function CartOf(carts: Table<Cart>, userId: nat): (r: Lookup)
    ensures r.Found? ==> r.id in carts.rows && carts.rows[r.id].userId == userId
    ensures r.Missing? <==> forall c :: c in carts.rows ==> carts.rows[c].userId != userId
  {
    FindOne(carts, (c: Cart) => c.userId == userId)
  }

  /** `cartitemdao.findByCartId(cartId)`: the ids of that cart's lines. */
  function LinesOf(items: Table<CartItem>, cartId: nat): (ids: seq<nat>)
    ensures forall id :: id in ids <==> id in items.rows && items.rows[id].cartId == cartId
    ensures forall j, k :: 0 <= j < k < |ids| ==> ids[j] < ids[k]
    ensures ids == [] <==> forall id :: id in items.rows ==> items.rows[id].cartId != cartId
  {
    Select(items, (l: CartItem) => l.cartId == cartId)
  }

  /** `cartitemdao.findByCartIdAndProductId(cartId, productId)`. */
  function LineOf(items: Table<CartItem>, cartId: nat, productId: nat): (r: Lookup)
    ensures r.Found? ==> r.id in items.rows && items.rows[r.id].cartId == cartId && items.rows[r.id].productId == productId
    ensures r.Missing? <==>
      forall l :: l in items.rows ==> !(items.rows[l].cartId == cartId && items.rows[l].productId == productId)
  {
    FindOne(items, (l: CartItem) => l.cartId == cartId && l.productId == productId)
  }

  /** With one line per (cart, product) the lookup is never ambiguous. */
  lemma LineOfUnambiguous(items: Table<CartItem>, cartId: nat, productId: nat)
    requires OneLinePerProduct(items)
    ensures !LineOf(items, cartId, productId).Ambiguous?
  {
  }

  /** With one line per (cart, product), a line of the cart for the product is the one found. */
  lemma LineOfFinds(items: Table<CartItem>, cartId: nat, productId: nat, id: nat)
    requires OneLinePerProduct(items)
    requires id in items.rows && items.rows[id].cartId == cartId && items.rows[id].productId == productId
    ensures LineOf(items, cartId, productId) == Found(id)
  {
    LineOfUnambiguous(items, cartId, productId);
  }

  /** Deleting cart lines keeps the integrity of the lines that remain. */
  lemma FewerLinesKeepIntegrity(items: Table<CartItem>, fewer: Table<CartItem>, carts: Table<Cart>, products: Table<Product>)
    requires OneLinePerProduct(items) && LinesReferenced(items, carts, products)
    requires forall l :: l in fewer.rows ==> l in items.rows && fewer.rows[l] == items.rows[l]
    ensures OneLinePerProduct(fewer) && LinesReferenced(fewer, carts, products)
  {
  }

  /** `findByUser(user).orElseGet(() -> save(new Cart(user)))`: the user's
      cart, created when missing. Returns the table and the cart's id. */
  function EnsureCart(carts: Table<Cart>, userId: nat): (r: (Table<Cart>, nat))
    requires OneCartPerUser(carts)
    ensures r.1 in r.0.rows && r.0.rows[r.1].userId == userId
    ensures OneCartPerUser(r.0)
    ensures forall c :: c in carts.rows ==> c in r.0.rows && r.0.rows[c] == carts.rows[c]
    ensures forall c :: c in r.0.rows ==> c in carts.rows || c == r.1
  {
    var found := CartOf(carts, userId);
    if found.Found? then (carts, found.id)
    else (Insert(carts, Cart(userId)), carts.next)
  }

  /** Looking the cart up a second time finds the same cart and creates nothing. */
  lemma {:induction false} EnsureCartIdempotent(carts: Table<Cart>, userId: nat)
    requires OneCartPerUser(carts)
    ensures var (carts', id) := EnsureCart(carts, userId);
            EnsureCart(carts', userId) == (carts', id)
  {
    var (carts', id) := EnsureCart(carts, userId);
    var again := CartOf(carts', userId);
    assert id in carts'.rows && carts'.rows[id].userId == userId;
    assert !again.Missing?;
    assert again.Found? ==> again.id == id;
  }

  /** A cart that did not exist before the lookup has no lines. */
  lemma NewCartHasNoLines(carts: Table<Cart>, items: Table<CartItem>, products: Table<Product>, userId: nat)
    requires OneCartPerUser(carts) && LinesReferenced(items, carts, products)
    requires CartOf(carts, userId).Missing?
    ensures LinesOf(items, EnsureCart(carts, userId).1) == []
  {
    assert EnsureCart(carts, userId).1 == carts.next;
  }
}
