/** The product service: the catalogue a vendor adds to and edits, and the
    searches over it. */
module Products {
  import opened Base
  import opened Tables
  import opened Entities
  import opened Store

  /** ProductDto as far as the service reads it: the category, the flags and
      the stock status it carries are overwritten before they are used. */
  datatype ProductRequest = ProductRequest(
    name: string,
    description: string,
    quantity: Int32,
    price: real,
    image: string,
    vendorId: nat,
    ecoRating: Int32)

  /** No two products of one category share a name. */
  ghost predicate NamesDistinctPerCategory(products: Table<Product>)
  {
    forall i, j ::
      i in products.rows && j in products.rows &&
      products.rows[i].categoryId == products.rows[j].categoryId && products.rows[i].name == products.rows[j].name
      ==> i == j
  }

  /** `existsByCategoryIdAndName(categoryId, name)`. */
  predicate NameInCategory(products: Table<Product>, categoryId: nat, name: string)
  {
    exists id :: id in products.rows && products.rows[id].categoryId == categoryId && products.rows[id].name == name
  }

  /** `existsByName(name)`, over every category. */
  predicate NameTaken(products: Table<Product>, name: string)
  {
    exists id :: id in products.rows && products.rows[id].name == name
  }

  // ----- addProduct -----

  /** The product `addProduct` saves: in the given category, by the vendor
      of the request, in stock and active. */
  function NewProduct(categoryId: nat, dto: ProductRequest): Product
  {
    Product(dto.name, dto.description, dto.quantity, dto.price, dto.image, categoryId, dto.vendorId, dto.ecoRating, true, InStock)
  }

  /** `addProduct(categoryId, dto)`: the product to save, or the first check
      that fails: an unknown category, then a name already used in that
      category, then an unknown vendor. */
  function AddProductOutcome(products: Table<Product>, categories: Table<Category>, users: Table<User>,
                             categoryId: nat, dto: ProductRequest): (r: Result<Product>)
    ensures categoryId !in categories.rows ==> r == Err(NotFound("invalid category!!!"))
    ensures categoryId in categories.rows && NameInCategory(products, categoryId, dto.name)
            ==> r == Err(InvalidInput("same category and poroduct name alrdy exist!!"))
    ensures categoryId in categories.rows && !NameInCategory(products, categoryId, dto.name) && dto.vendorId !in users.rows
            ==> r == Err(NotFound("wrong vendor id!!!"))
    ensures r.Ok? ==> r.value.categoryId in categories.rows && r.value.vendorId in users.rows
  {
    if categoryId !in categories.rows then Err(NotFound("invalid category!!!"))
    else if NameInCategory(products, categoryId, dto.name) then Err(InvalidInput("same category and poroduct name alrdy exist!!"))
    else if dto.vendorId !in users.rows then Err(NotFound("wrong vendor id!!!"))
    else Ok(NewProduct(categoryId, dto))
  }

  /** A product is added exactly when its category and vendor exist and its
      category has no product of that name; it is then in stock and active,
      in that category, by that vendor. */
  lemma AddProductAccepts(products: Table<Product>, categories: Table<Category>, users: Table<User>,
                          categoryId: nat, dto: ProductRequest)
    ensures var r := AddProductOutcome(products, categories, users, categoryId, dto);
            && (r.Ok? <==> categoryId in categories.rows && dto.vendorId in users.rows
                           && forall id :: id in products.rows && products.rows[id].categoryId == categoryId ==> products.rows[id].name != dto.name)
            && (r.Ok? ==> r.value.stockStatus == InStock && r.value.active && r.value.categoryId == categoryId
                          && r.value.vendorId == dto.vendorId && r.value.name == dto.name && r.value.quantity == dto.quantity)
  {
  }

  /** The name check is per category: a name used only in other categories
      does not stop the product from being added. */
  lemma SameNameInOtherCategoryAllowed(products: Table<Product>, categories: Table<Category>, users: Table<User>,
                                       categoryId: nat, dto: ProductRequest, other: nat)
    requires categoryId in categories.rows && dto.vendorId in users.rows
    requires other in products.rows && products.rows[other].name == dto.name
    requires forall id :: id in products.rows && products.rows[id].name == dto.name ==> products.rows[id].categoryId != categoryId
    ensures AddProductOutcome(products, categories, users, categoryId, dto).Ok?
  {
  }

  /** Adding keeps the names of each category distinct. */
  lemma AddProductKeepsNamesDistinct(products: Table<Product>, categories: Table<Category>, users: Table<User>,
                                     categoryId: nat, dto: ProductRequest)
    requires NamesDistinctPerCategory(products)
    requires AddProductOutcome(products, categories, users, categoryId, dto).Ok?
    ensures NamesDistinctPerCategory(Insert(products, AddProductOutcome(products, categories, users, categoryId, dto).value))
  {
  }

  /** A saved product keeps the catalogue's and the cart lines' references valid. */
  lemma AddProductKeepsIntegrity(items: Table<CartItem>, carts: Table<Cart>, products: Table<Product>,
                                 categories: Table<Category>, users: Table<User>, p: Product)
    requires LinesReferenced(items, carts, products) && CatalogueReferenced(products, categories, users)
    requires p.categoryId in categories.rows && p.vendorId in users.rows
    ensures LinesReferenced(items, carts, Insert(products, p)) && CatalogueReferenced(Insert(products, p), categories, users)
  {
  }

  method AddProduct(db: Database, categoryId: nat, dto: ProductRequest) returns (r: Result<Product>)
    requires db.Valid()
    modifies db`products
    ensures db.Valid()
    ensures r == AddProductOutcome(old(db.products), db.categories, db.users, categoryId, dto)
    ensures r.Ok? ==> db.products == Insert(old(db.products), r.value)
    ensures r.Err? ==> db.products == old(db.products)
  {
    r := AddProductOutcome(db.products, db.categories, db.users, categoryId, dto);
    if r.Ok? {
      AddProductKeepsIntegrity(db.cartItems, db.carts, db.products, db.categories, db.users, r.value);
      db.SetProducts(Insert(db.products, r.value));
    }
  }

  // ----- updateProduct -----

  /** The product after `updateProduct`: every field comes from the request
      except the category and the vendor, which are kept, and the product is
      put back in stock and made active whatever its quantity. */
  function UpdatedProduct(current: Product, dto: ProductRequest): Product
  {
    Product(dto.name, dto.description, dto.quantity, dto.price, dto.image,
            current.categoryId, current.vendorId, dto.ecoRating, true, InStock)
  }

  /** `updateProduct(id, dto)`: the product table afterwards, or an unknown id,
      or a new name that some product in any category already has. */
  function UpdateProductOutcome(products: Table<Product>, id: nat, dto: ProductRequest): (r: Result<Table<Product>>)
    ensures id !in products.rows ==> r == Err(NotFound("Product not found"))
    ensures r.Ok? ==> r.value.rows.Keys == products.rows.Keys && r.value.next == products.next
    ensures r.Ok? ==> forall other :: other in products.rows && other != id ==> r.value.rows[other] == products.rows[other]
  {
    if id !in products.rows then Err(NotFound("Product not found"))
    else if products.rows[id].name != dto.name && NameTaken(products, dto.name) then Err(InvalidInput("Duplicate product name!"))
    else Ok(Put(products, id, UpdatedProduct(products.rows[id], dto)))
  }

  /** Keeping the current name always passes the name check; a new name
      passes only when no product anywhere has it. A product that passes keeps
      its category and vendor and becomes in stock and active. */
  lemma UpdateProductAccepts(products: Table<Product>, id: nat, dto: ProductRequest)
    requires id in products.rows
    ensures var r := UpdateProductOutcome(products, id, dto);
            && (r.Ok? <==> products.rows[id].name == dto.name || !NameTaken(products, dto.name))
            && (r.Err? ==> r.error == InvalidInput("Duplicate product name!"))
            && (r.Ok? ==> var p := r.value.rows[id];
                  && p.categoryId == products.rows[id].categoryId && p.vendorId == products.rows[id].vendorId
                  && p.stockStatus == InStock && p.active && p.name == dto.name && p.quantity == dto.quantity)
  {
  }

  /** Updating keeps the names of each category distinct. */
  lemma UpdateProductKeepsNamesDistinct(products: Table<Product>, id: nat, dto: ProductRequest)
    requires NamesDistinctPerCategory(products)
    requires UpdateProductOutcome(products, id, dto).Ok?
    ensures NamesDistinctPerCategory(UpdateProductOutcome(products, id, dto).value)
  {
    var after := UpdateProductOutcome(products, id, dto).value;
    forall i, j | i in after.rows && j in after.rows && i != j
      ensures after.rows[i].categoryId != after.rows[j].categoryId || after.rows[i].name != after.rows[j].name
    {
      var other := if i == id then j else i;
      assert after.rows[other] == products.rows[other];
    }
  }

  method UpdateProduct(db: Database, id: nat, dto: ProductRequest) returns (r: Result<Product>)
    requires db.Valid()
    modifies db`products
    ensures db.Valid()
    ensures var outcome := UpdateProductOutcome(old(db.products), id, dto);
            && (outcome.Err? ==> r == Err(outcome.error) && db.products == old(db.products))
            && (outcome.Ok? ==> db.products == outcome.value && r == Ok(db.products.rows[id]))
  {
    var outcome := UpdateProductOutcome(db.products, id, dto);
    if outcome.Err? {
      return Err(outcome.error);
    }
    db.SetProducts(outcome.value);
    r := Ok(db.products.rows[id]);
  }

  // ----- deleteProduct -----

  /** A cart line or an order line still points at the product. */
  predicate ProductInUse(items: Table<CartItem>, orders: Table<Order>, productId: nat)
  {
    || (exists l :: l in items.rows && items.rows[l].productId == productId)
    || (exists o, k :: o in orders.rows && 0 <= k < |orders.rows[o].items| && orders.rows[o].items[k].productId == productId)
  }

  /** `deleteProduct(id)`: the product table afterwards. An unknown id fails;
      a product that a cart line or an order line refers to cannot be deleted
      (the database's foreign keys refuse it and the transaction rolls back). */
  function DeleteProductOutcome(products: Table<Product>, items: Table<CartItem>, orders: Table<Order>, id: nat)
    : (r: Result<Table<Product>>)
    ensures id !in products.rows ==> r == Err(NotFound("invalid product id!!!"))
    ensures r.Ok? <==> id in products.rows && !ProductInUse(items, orders, id)
    ensures r.Ok? ==> r.value.rows == products.rows - {id}
  {
    if id !in products.rows then Err(NotFound("invalid product id!!!"))
    else if ProductInUse(items, orders, id) then Err(ForeignKeyViolation)
    else Ok(Without(products, [id]))
  }

  /** Deleting a product nothing refers to keeps every reference valid. */
  lemma DeleteProductKeepsIntegrity(items: Table<CartItem>, carts: Table<Cart>, products: Table<Product>,
                                    categories: Table<Category>, users: Table<User>, orders: Table<Order>, id: nat)
    requires LinesReferenced(items, carts, products) && CatalogueReferenced(products, categories, users)
    requires DeleteProductOutcome(products, items, orders, id).Ok?
    ensures var after := DeleteProductOutcome(products, items, orders, id).value;
            LinesReferenced(items, carts, after) && CatalogueReferenced(after, categories, users)
  {
    var after := DeleteProductOutcome(products, items, orders, id).value;
    forall l | l in items.rows ensures items.rows[l].productId in after.rows {
      assert items.rows[l].productId != id;
    }
  }

  method DeleteProduct(db: Database, id: nat) returns (r: Result<string>)
    requires db.Valid()
    modifies db`products
    ensures db.Valid()
    ensures var outcome := DeleteProductOutcome(old(db.products), db.cartItems, db.orders, id);
            && (outcome.Err? ==> r == Err(outcome.error) && db.products == old(db.products))
            && (outcome.Ok? ==> r == Ok("deleted!!!") && db.products == outcome.value)
  {
    var outcome := DeleteProductOutcome(db.products, db.cartItems, db.orders, id);
    if outcome.Err? {
      return Err(outcome.error);
    }
    DeleteProductKeepsIntegrity(db.cartItems, db.carts, db.products, db.categories, db.users, db.orders, id);
    db.SetProducts(outcome.value);
    r := Ok("deleted!!!");
  }

  // ----- Searches -----

  /** `searchProducts(name)`: the products with exactly that name, or
      "list is empty" when there are none. */
  function SearchProducts(products: Table<Product>, name: string): (r: Result<seq<nat>>)
    ensures r.Err? <==> !NameTaken(products, name)
    ensures r.Err? ==> r.error == NotFound("list is empty")
    ensures r.Ok? ==> forall id :: id in r.value <==> id in products.rows && products.rows[id].name == name
  {
    var ids := Select(products, (p: Product) => p.name == name);
    if ids == [] then Err(NotFound("list is empty")) else Ok(ids)
  }

  /** `getByVendorId(vendorId)`: the vendor's products, or "list is empty"
      when there are none. */
  function ProductsByVendor(products: Table<Product>, vendorId: nat): (r: Result<seq<nat>>)
    ensures r.Err? <==> forall id :: id in products.rows ==> products.rows[id].vendorId != vendorId
    ensures r.Err? ==> r.error == NotFound("list is empty")
    ensures r.Ok? ==> forall id :: id in r.value <==> id in products.rows && products.rows[id].vendorId == vendorId
  {
    var ids := Select(products, (p: Product) => p.vendorId == vendorId);
    if ids == [] then Err(NotFound("list is empty")) else Ok(ids)
  }

  /** A product just added is found by its name and under its vendor. */
  lemma AddedProductIsFound(products: Table<Product>, categories: Table<Category>, users: Table<User>,
                            categoryId: nat, dto: ProductRequest)
    requires AddProductOutcome(products, categories, users, categoryId, dto).Ok?
    ensures var after := Insert(products, AddProductOutcome(products, categories, users, categoryId, dto).value);
            && SearchProducts(after, dto.name).Ok? && products.next in SearchProducts(after, dto.name).value
            && ProductsByVendor(after, dto.vendorId).Ok? && products.next in ProductsByVendor(after, dto.vendorId).value
  {
    var after := Insert(products, AddProductOutcome(products, categories, users, categoryId, dto).value);
    assert after.rows[products.next].name == dto.name && after.rows[products.next].vendorId == dto.vendorId;
  }
}
