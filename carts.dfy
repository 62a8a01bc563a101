/** The cart service: the lazily created cart of a user and the lines in it. */
module Carts {
  import opened Base
  import opened Tables
  import opened Entities
  import opened Store

  /** CartResDto: the quantity and product of the request, and the ids of
      the cart's lines once the new line is saved. */
  datatype CartResponse = CartResponse(quantity: Int32, productId: nat, items: seq<nat>)

  /** The cart-line table after `addToCart` has saved its line: the existing
      line for the product gains `quantity` (in Java `int` arithmetic), or a
      new line with `quantity` is added; either way the line's price becomes
      `price`, the product's current price. */
  function AddedLine(items: Table<CartItem>, cartId: nat, productId: nat, quantity: Int32, price: real): (r: Table<CartItem>)
    requires OneLinePerProduct(items)
    ensures OneLinePerProduct(r)
  {
    var found := LineOf(items, cartId, productId);
    if found.Found? then
      var line := items.rows[found.id];
      Put(items, found.id, line.(quantity := Wrap(line.quantity + quantity), price := price))
    else
      Insert(items, CartItem(cartId, productId, quantity, price))
  }

  /** After `addToCart` the cart holds exactly one line for the product: the
      old quantity plus the added one, or the added one when the product was
      not in the cart, at the given price. */
  lemma AddedLineResult(items: Table<CartItem>, cartId: nat, productId: nat, quantity: Int32, price: real)
    requires OneLinePerProduct(items)
    ensures var before := LineOf(items, cartId, productId);
            var r := AddedLine(items, cartId, productId, quantity, price);
            var after := LineOf(r, cartId, productId);
            && after.Found?
            && r.rows[after.id].price == price
            && r.rows[after.id].quantity == (if before.Found? then Wrap(items.rows[before.id].quantity + quantity) else quantity)
  {
    LineOfUnambiguous(items, cartId, productId);
    var before := LineOf(items, cartId, productId);
    var r := AddedLine(items, cartId, productId, quantity, price);
    var id := if before.Found? then before.id else items.next;
    LineOfFinds(r, cartId, productId, id);
  }

  /** A merge keeps the line's id and the set of lines; a new line gets a fresh id. */
  lemma AddedLineKeys(items: Table<CartItem>, cartId: nat, productId: nat, quantity: Int32, price: real)
    requires OneLinePerProduct(items)
    ensures var before := LineOf(items, cartId, productId);
            var r := AddedLine(items, cartId, productId, quantity, price);
            var after := LineOf(r, cartId, productId);
            && (before.Found? ==> after == before && r.rows.Keys == items.rows.Keys)
            && (before.Missing? ==> after.Found? && after.id !in items.rows && r.rows.Keys == items.rows.Keys + {after.id})
  {
    LineOfUnambiguous(items, cartId, productId);
    var before := LineOf(items, cartId, productId);
    var r := AddedLine(items, cartId, productId, quantity, price);
    var id := if before.Found? then before.id else items.next;
    LineOfFinds(r, cartId, productId, id);
  }

  /** Every other line, of this cart or another, is as it was. */
  lemma AddedLineKeepsOthers(items: Table<CartItem>, cartId: nat, productId: nat, quantity: Int32, price: real)
    requires OneLinePerProduct(items)
    ensures var r := AddedLine(items, cartId, productId, quantity, price);
            forall l :: l in items.rows && !(items.rows[l].cartId == cartId && items.rows[l].productId == productId) ==>
              l in r.rows && r.rows[l] == items.rows[l]
  {
    LineOfUnambiguous(items, cartId, productId);
  }

  /** The line `addToCart` saves points at a stored cart and product. */
  lemma AddedLineReferenced(items: Table<CartItem>, carts: Table<Cart>, products: Table<Product>,
                            cartId: nat, productId: nat, quantity: Int32, price: real)
    requires OneLinePerProduct(items) && LinesReferenced(items, carts, products)
    requires cartId in carts.rows && productId in products.rows
    ensures LinesReferenced(AddedLine(items, cartId, productId, quantity, price), carts, products)
  {
    LineOfUnambiguous(items, cartId, productId);
  }

  /** The cart-line table after `updateCartItem`: the quantity of the cart's
      line for the product becomes `quantity`, whatever its sign; without
      such a line the update fails. */
  function QuantitySet(items: Table<CartItem>, cartId: nat, productId: nat, quantity: Int32): (r: Result<Table<CartItem>>)
    ensures r.Ok? ==> r.value.rows.Keys == items.rows.Keys
    ensures r.Ok? ==> forall l :: l in items.rows ==>
      r.value.rows[l] == items.rows[l].(quantity := r.value.rows[l].quantity)
  {
    var found := LineOf(items, cartId, productId);
    if found.Found? then Ok(Put(items, found.id, items.rows[found.id].(quantity := quantity)))
    else Err(NotFound("invalid cart and product  id!!!"))
  }

  /** The update succeeds exactly when the cart has a line for the product;
      then that line, and only its quantity, changes. */
  lemma QuantitySetSpec(items: Table<CartItem>, cartId: nat, productId: nat, quantity: Int32)
    requires OneLinePerProduct(items)
    ensures var r := QuantitySet(items, cartId, productId, quantity);
            && (r.Err? <==> LineOf(items, cartId, productId).Missing?)
            && (r.Err? ==> r.error == NotFound("invalid cart and product  id!!!"))
            && (r.Ok? ==>
                  var id := LineOf(items, cartId, productId).id;
                  && LineOf(r.value, cartId, productId) == Found(id)
                  && r.value.rows[id] == items.rows[id].(quantity := quantity)
                  && r.value.rows.Keys == items.rows.Keys
                  && forall l :: l in items.rows && l != id ==> r.value.rows[l] == items.rows[l])
  {
    LineOfUnambiguous(items, cartId, productId);
    var found := LineOf(items, cartId, productId);
    if found.Found? {
      LineOfFinds(QuantitySet(items, cartId, productId, quantity).value, cartId, productId, found.id);
    }
  }

  /** Changing a line's quantity keeps every line's cart and product. */
  lemma QuantitySetKeepsIntegrity(items: Table<CartItem>, carts: Table<Cart>, products: Table<Product>,
                                  cartId: nat, productId: nat, quantity: Int32)
    requires OneLinePerProduct(items) && LinesReferenced(items, carts, products)
    ensures var r := QuantitySet(items, cartId, productId, quantity);
            r.Ok? ==> OneLinePerProduct(r.value) && LinesReferenced(r.value, carts, products)
  {
  }

  /** The table after `deleteByCartIdAndProductId`. */
  function RemovedLine(items: Table<CartItem>, cartId: nat, productId: nat): (r: Table<CartItem>)
  {
    Without(items, Select(items, (l: CartItem) => l.cartId == cartId && l.productId == productId))
  }

  /** Removing a product from a cart deletes that product's line of that cart
      and nothing else; removing an absent line changes nothing. */
  lemma RemovedLineSpec(items: Table<CartItem>, cartId: nat, productId: nat)
    ensures var r := RemovedLine(items, cartId, productId);
            && LineOf(r, cartId, productId).Missing?
            && (forall l :: l in items.rows && !(items.rows[l].cartId == cartId && items.rows[l].productId == productId) ==>
                  l in r.rows && r.rows[l] == items.rows[l])
            && (forall l :: l in r.rows ==> l in items.rows)
            && (LineOf(items, cartId, productId).Missing? ==> r == items)
  {
    var r := RemovedLine(items, cartId, productId);
    if LineOf(items, cartId, productId).Missing? {
      assert r.rows == items.rows;
    }
  }

  /** The table after `deleteByCartId`. */
  function ClearedCart(items: Table<CartItem>, cartId: nat): (r: Table<CartItem>)
  {
    Without(items, LinesOf(items, cartId))
  }

  /** Clearing a cart deletes every line of that cart and leaves the lines of
      other carts as they were. */
  lemma ClearedCartSpec(items: Table<CartItem>, cartId: nat)
    ensures var r := ClearedCart(items, cartId);
            && LinesOf(r, cartId) == []
            && (forall l :: l in r.rows <==> l in items.rows && items.rows[l].cartId != cartId)
            && (forall l :: l in r.rows ==> r.rows[l] == items.rows[l])
  {
  }

  /** Clearing twice is clearing once. */
  lemma ClearIdempotent(items: Table<CartItem>, cartId: nat)
    ensures ClearedCart(ClearedCart(items, cartId), cartId) == ClearedCart(items, cartId)
  {
    var once := ClearedCart(items, cartId);
    ClearedCartSpec(items, cartId);
    assert ClearedCart(once, cartId).rows == once.rows;
  }

  /** `getCartByUserId`: the user's cart id, the cart created when missing. */
  method GetCartByUserId(db: Database, userId: nat) returns (r: Result<nat>)
    requires db.Valid()
    modifies db`carts
    ensures db.Valid()
    ensures userId !in db.users.rows ==> r == Err(NotFound("invalid user id!!!")) && db.carts == old(db.carts)
    ensures userId in db.users.rows ==> r == Ok(EnsureCart(old(db.carts), userId).1)
    ensures userId in db.users.rows ==> db.carts == EnsureCart(old(db.carts), userId).0
  {
    if userId !in db.users.rows {
      return Err(NotFound("invalid user id!!!"));
    }
    var found := CartOf(db.carts, userId);
    if found.Found? {
      r := Ok(found.id);
    } else {
      var id := db.carts.next;
      db.SetCarts(Insert(db.carts, Cart(userId)));
      r := Ok(id);
    }
  }

  /** `addToCart`. The response echoes the request, not the line's new total,
      and lists the cart's lines, the saved one among them. */
  method AddToCart(db: Database, userId: nat, productId: nat, quantity: Int32) returns (r: Result<CartResponse>)
    requires db.Valid()
    modifies db`carts, db`cartItems
    ensures db.Valid()
    ensures userId !in db.users.rows ==>
      r == Err(NotFound("invalid user id!!!")) && db.carts == old(db.carts) && db.cartItems == old(db.cartItems)
    ensures userId in db.users.rows ==> db.carts == EnsureCart(old(db.carts), userId).0
    ensures userId in db.users.rows && productId !in db.products.rows ==>
      r == Err(NotFound("invalid product id!!!")) && db.cartItems == old(db.cartItems)
    ensures userId in db.users.rows && productId in db.products.rows ==>
      && r == Ok(CartResponse(quantity, productId, LinesOf(db.cartItems, EnsureCart(old(db.carts), userId).1)))
      && db.cartItems == AddedLine(old(db.cartItems), EnsureCart(old(db.carts), userId).1,
                                   productId, quantity, db.products.rows[productId].price)
      && LineOf(db.cartItems, EnsureCart(old(db.carts), userId).1, productId).Found?
      && LineOf(db.cartItems, EnsureCart(old(db.carts), userId).1, productId).id in r.value.items
  {
    if userId !in db.users.rows {
      return Err(NotFound("invalid user id!!!"));
    }
    var cart := GetCartByUserId(db, userId);
    var cartId := cart.value;
    if productId !in db.products.rows {
      return Err(NotFound("invalid product id!!!"));
    }
    var product := db.products.rows[productId];
    AddedLineReferenced(db.cartItems, db.carts, db.products, cartId, productId, quantity, product.price);
    AddedLineResult(db.cartItems, cartId, productId, quantity, product.price);
    db.SetCartItems(AddedLine(db.cartItems, cartId, productId, quantity, product.price));
    r := Ok(CartResponse(quantity, productId, LinesOf(db.cartItems, cartId)));
  }

  /** The outcome of `updateCartItem` on a cart: the new table and the result. */
  predicate QuantityUpdated(items: Table<CartItem>, cartId: nat, productId: nat, quantity: Int32,
                            items': Table<CartItem>, r: Result<nat>)
  {
    var updated := QuantitySet(items, cartId, productId, quantity);
    && (updated.Err? ==> r == Err(updated.error) && items' == items)
    && (updated.Ok? ==> r == Ok(cartId) && items' == updated.value)
  }

  /** `updateCartItem`: sets the line's quantity to `quantity`, whatever its sign. */
  method UpdateCartItem(db: Database, userId: nat, productId: nat, quantity: Int32) returns (r: Result<nat>)
    requires db.Valid()
    modifies db`carts, db`cartItems
    ensures db.Valid()
    ensures userId !in db.users.rows ==>
      r == Err(NotFound("invalid user id!!!")) && db.carts == old(db.carts) && db.cartItems == old(db.cartItems)
    ensures userId in db.users.rows ==> db.carts == EnsureCart(old(db.carts), userId).0
    ensures userId in db.users.rows ==>
      QuantityUpdated(old(db.cartItems), EnsureCart(old(db.carts), userId).1, productId, quantity, db.cartItems, r)
  {
    var cart := GetCartByUserId(db, userId);
    if cart.Err? {
      return Err(cart.error);
    }
    var cartId := cart.value;
    var updated := QuantitySet(db.cartItems, cartId, productId, quantity);
    if updated.Err? {
      return Err(updated.error);
    }
    QuantitySetKeepsIntegrity(db.cartItems, db.carts, db.products, cartId, productId, quantity);
    db.SetCartItems(updated.value);
    r := Ok(cartId);
  }

  /** `removeFromCart`: both the user and the product must exist; a product
      that is not in the cart is not an error. */
  method RemoveFromCart(db: Database, userId: nat, productId: nat) returns (r: Result<string>)
    requires db.Valid()
    modifies db`carts, db`cartItems
    ensures db.Valid()
    ensures userId !in db.users.rows ==>
      r == Err(NotFound("invalid user id!!!")) && db.carts == old(db.carts) && db.cartItems == old(db.cartItems)
    ensures userId in db.users.rows && productId !in db.products.rows ==>
      r == Err(NotFound("invalid product id!!!")) && db.carts == old(db.carts) && db.cartItems == old(db.cartItems)
    ensures userId in db.users.rows && productId in db.products.rows ==>
      && r == Ok("deleted!!")
      && db.carts == EnsureCart(old(db.carts), userId).0
      && db.cartItems == RemovedLine(old(db.cartItems), EnsureCart(old(db.carts), userId).1, productId)
  {
    if userId !in db.users.rows {
      return Err(NotFound("invalid user id!!!"));
    }
    if productId !in db.products.rows {
      return Err(NotFound("invalid product id!!!"));
    }
    var cart := GetCartByUserId(db, userId);
    FewerLinesKeepIntegrity(db.cartItems, RemovedLine(db.cartItems, cart.value, productId), db.carts, db.products);
    db.SetCartItems(RemovedLine(db.cartItems, cart.value, productId));
    r := Ok("deleted!!");
  }

  /** `clearCart`: deletes every line of the user's cart. */
  method ClearCart(db: Database, userId: nat) returns (r: Result<string>)
    requires db.Valid()
    modifies db`carts, db`cartItems
    ensures db.Valid()
    ensures userId !in db.users.rows ==>
      r == Err(NotFound("invalid user id!!!")) && db.carts == old(db.carts) && db.cartItems == old(db.cartItems)
    ensures userId in db.users.rows ==>
      && r == Ok("cart cleared!!!")
      && db.carts == EnsureCart(old(db.carts), userId).0
      && db.cartItems == ClearedCart(old(db.cartItems), EnsureCart(old(db.carts), userId).1)
  {
    var cart := GetCartByUserId(db, userId);
    if cart.Err? {
      return Err(cart.error);
    }
    FewerLinesKeepIntegrity(db.cartItems, ClearedCart(db.cartItems, cart.value), db.carts, db.products);
    db.SetCartItems(ClearedCart(db.cartItems, cart.value));
    r := Ok("cart cleared!!!");
  }
}
