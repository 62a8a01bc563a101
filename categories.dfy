/** The category service: the categories products are filed under. */
module Categories {
  import opened Base
  import opened Text
  import opened Tables
  import opened Entities
  import opened Store
  import opened Products

  /** `existsByName(name)`: an exact match on the name. */
  predicate CategoryNameTaken(categories: Table<Category>, name: string)
  {
    exists id :: id in categories.rows && categories.rows[id].name == name
  }

  /** No two categories share a name. */
  ghost predicate CategoryNamesDistinct(categories: Table<Category>)
  {
    forall i, j :: i in categories.rows && j in categories.rows && categories.rows[i].name == categories.rows[j].name ==> i == j
  }

  // ----- addCategory -----

  /** `addCategory(dto)`: the table with the new category, or a name some
      category already has. */
  function AddCategoryOutcome(categories: Table<Category>, dto: Category): (r: Result<Table<Category>>)
    ensures r.Err? <==> CategoryNameTaken(categories, dto.name)
    ensures r.Err? ==> r.error == InvalidInput("duplicate category name!!")
  {
    if CategoryNameTaken(categories, dto.name) then Err(InvalidInput("duplicate category name!!"))
    else Ok(Insert(categories, dto))
  }

  /** An added category is stored under a fresh id, nothing else changes, and
      the names stay distinct. */
  lemma AddCategoryKeepsNamesDistinct(categories: Table<Category>, dto: Category)
    requires CategoryNamesDistinct(categories)
    requires AddCategoryOutcome(categories, dto).Ok?
    ensures var after := AddCategoryOutcome(categories, dto).value;
            && categories.next !in categories.rows
            && after.rows == categories.rows[categories.next := dto]
            && CategoryNamesDistinct(after)
  {
    var after := AddCategoryOutcome(categories, dto).value;
    forall i, j | i in after.rows && j in after.rows && i != j
      ensures after.rows[i].name != after.rows[j].name
    {
      if i == categories.next {
        assert after.rows[j] == categories.rows[j];
      } else if j == categories.next {
        assert after.rows[i] == categories.rows[i];
      }
    }
  }

  method AddCategory(db: Database, dto: Category) returns (r: Result<(nat, Category)>)
    requires db.Valid()
    modifies db`categories
    ensures db.Valid()
    ensures var outcome := AddCategoryOutcome(old(db.categories), dto);
            && (outcome.Err? ==> r == Err(outcome.error) && db.categories == old(db.categories))
            && (outcome.Ok? ==> r == Ok((old(db.categories.next), dto)) && db.categories == outcome.value)
  {
    var outcome := AddCategoryOutcome(db.categories, dto);
    if outcome.Err? {
      return Err(outcome.error);
    }
    r := Ok((db.categories.next, dto));
    db.SetCategories(outcome.value);
  }

  /** `getAllCategories`: every category, by id. */
  function AllCategories(categories: Table<Category>): (ids: seq<nat>)
    ensures forall id :: id in ids <==> id in categories.rows
    ensures forall j, k :: 0 <= j < k < |ids| ==> ids[j] < ids[k]
  {
    Select(categories, (c: Category) => true)
  }

  // ----- updateCategory -----

  /** `updateCategory(id, dto)`: the table afterwards. An unknown id fails;
      the name check runs only when the new name differs from the current
      one ignoring case, and then any category with exactly the new name
      refuses it. The request's name and description replace the stored ones. */
  function UpdateCategoryOutcome(categories: Table<Category>, id: nat, dto: Category): (r: Result<Table<Category>>)
    ensures id !in categories.rows ==> r == Err(NotFound("Invalid category ID"))
    ensures r.Ok? ==> id in categories.rows && r.value == Put(categories, id, dto)
  {
    if id !in categories.rows then Err(NotFound("Invalid category ID"))
    else if !EqualsIgnoreCase(categories.rows[id].name, dto.name) && CategoryNameTaken(categories, dto.name) then
      Err(InvalidInput("duplicate category name!!"))
    else Ok(Put(categories, id, dto))
  }

  /** The rename is refused exactly when the new name is not a case variant
      of the current one and some category has exactly that name. */
  lemma UpdateCategoryAccepts(categories: Table<Category>, id: nat, dto: Category)
    requires id in categories.rows
    ensures var r := UpdateCategoryOutcome(categories, id, dto);
            && (r.Err? <==> !EqualsIgnoreCase(categories.rows[id].name, dto.name) && CategoryNameTaken(categories, dto.name))
            && (r.Err? ==> r.error == InvalidInput("duplicate category name!!"))
  {
  }

  /** A rename that only changes letter case skips the name check, so it is
      accepted even when another category already has exactly the new name:
      the names then stop being distinct. */
  lemma CaseVariantRenameSkipsCheck(categories: Table<Category>, id: nat, other: nat, dto: Category)
    requires id in categories.rows && other in categories.rows && id != other
    requires EqualsIgnoreCase(categories.rows[id].name, dto.name) && categories.rows[other].name == dto.name
    ensures UpdateCategoryOutcome(categories, id, dto).Ok?
    ensures !CategoryNamesDistinct(UpdateCategoryOutcome(categories, id, dto).value)
  {
    var after := UpdateCategoryOutcome(categories, id, dto).value;
    assert after.rows[id].name == after.rows[other].name;
  }

  /** Any other rename keeps the names distinct. */
  lemma OtherRenameKeepsNamesDistinct(categories: Table<Category>, id: nat, dto: Category)
    requires CategoryNamesDistinct(categories)
    requires UpdateCategoryOutcome(categories, id, dto).Ok?
    requires !EqualsIgnoreCase(categories.rows[id].name, dto.name)
    ensures CategoryNamesDistinct(UpdateCategoryOutcome(categories, id, dto).value)
  {
    var after := UpdateCategoryOutcome(categories, id, dto).value;
    forall i, j | i in after.rows && j in after.rows && i != j
      ensures after.rows[i].name != after.rows[j].name
    {
      var keep := if i == id then j else i;
      assert after.rows[keep] == categories.rows[keep];
    }
  }

  method UpdateCategory(db: Database, id: nat, dto: Category) returns (r: Result<Category>)
    requires db.Valid()
    modifies db`categories
    ensures db.Valid()
    ensures var outcome := UpdateCategoryOutcome(old(db.categories), id, dto);
            && (outcome.Err? ==> r == Err(outcome.error) && db.categories == old(db.categories))
            && (outcome.Ok? ==> r == Ok(dto) && db.categories == outcome.value)
  {
    var outcome := UpdateCategoryOutcome(db.categories, id, dto);
    if outcome.Err? {
      return Err(outcome.error);
    }
    db.SetCategories(outcome.value);
    r := Ok(dto);
  }

  // ----- deleteCategory -----

  /** The products filed under a category. */
  function ProductsIn(products: Table<Product>, categoryId: nat): (ids: seq<nat>)
    ensures forall p :: p in ids <==> p in products.rows && products.rows[p].categoryId == categoryId
  {
    Select(products, (p: Product) => p.categoryId == categoryId)
  }

  /** `deleteCategory(id)`: the category and product tables afterwards. The
      delete cascades to the category's products, so it fails like a product
      delete when a cart line or an order line refers to one of them. */
  function DeleteCategoryOutcome(categories: Table<Category>, products: Table<Product>, items: Table<CartItem>,
                                 orders: Table<Order>, id: nat)
    : (r: Result<(Table<Category>, Table<Product>)>)
    ensures id !in categories.rows ==> r == Err(NotFound("category not found!!"))
    ensures r.Ok? <==> id in categories.rows && forall p :: p in ProductsIn(products, id) ==> !ProductInUse(items, orders, p)
  {
    if id !in categories.rows then Err(NotFound("category not found!!"))
    else
      var doomed := ProductsIn(products, id);
      if exists p :: p in doomed && ProductInUse(items, orders, p) then Err(ForeignKeyViolation)
      else Ok((Without(categories, [id]), Without(products, doomed)))
  }

  /** A successful delete removes the category and exactly its products,
      keeps every other row, and keeps every reference valid. */
  lemma DeleteCategoryRemovesItsProducts(categories: Table<Category>, products: Table<Product>, items: Table<CartItem>,
                                         carts: Table<Cart>, orders: Table<Order>, users: Table<User>, id: nat)
    requires LinesReferenced(items, carts, products) && CatalogueReferenced(products, categories, users)
    requires DeleteCategoryOutcome(categories, products, items, orders, id).Ok?
    ensures var (categories', products') := DeleteCategoryOutcome(categories, products, items, orders, id).value;
            && categories'.rows == categories.rows - {id}
            && (forall p :: p in products'.rows <==> p in products.rows && products.rows[p].categoryId != id)
            && (forall p :: p in products'.rows ==> products'.rows[p] == products.rows[p])
            && LinesReferenced(items, carts, products') && CatalogueReferenced(products', categories', users)
  {
    var (categories', products') := DeleteCategoryOutcome(categories, products, items, orders, id).value;
    forall l | l in items.rows ensures items.rows[l].productId in products'.rows {
      var p := items.rows[l].productId;
      assert ProductInUse(items, orders, p);
    }
  }

  method DeleteCategory(db: Database, id: nat) returns (r: Result<string>)
    requires db.Valid()
    modifies db`categories, db`products
    ensures db.Valid()
    ensures var outcome := DeleteCategoryOutcome(old(db.categories), old(db.products), db.cartItems, db.orders, id);
            && (outcome.Err? ==> r == Err(outcome.error) && db.categories == old(db.categories) && db.products == old(db.products))
            && (outcome.Ok? ==> r == Ok("deleted!!!") && (db.categories, db.products) == outcome.value)
  {
    var outcome := DeleteCategoryOutcome(db.categories, db.products, db.cartItems, db.orders, id);
    if outcome.Err? {
      return Err(outcome.error);
    }
    DeleteCategoryRemovesItsProducts(db.categories, db.products, db.cartItems, db.carts, db.orders, db.users, id);
    var (categories', products') := outcome.value;
    db.SetProducts(products');
    db.SetCategories(categories');
    r := Ok("deleted!!!");
  }
}
