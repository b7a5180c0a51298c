/** The product catalog of backend/routes/products.py: payload validation,
    the admin role check, and the per-owner listing of products. The
    handlers that change the catalog are methods of Backend.Store. */
module Products {
  import opened Http
  import opened Json

  /** Prices are held in minor currency units; a JSON integer price is in major units. */
  const MinorPerMajor: int := 100

  const NoDataMessage := "No data provided"
  const NameMessage := "Product name is required"
  const PriceMessage := "Price must be a number"
  const StockMessage := "Stock must be an integer"
  const AdminMessage := "Admin access required"
  const DeleteMessage := "Unauthorized or not found"
  const DeletedMessage := "Product deleted"

  /** A catalog row. Neither price nor stock is kept non-negative by the
      handlers: the validator accepts negative values. */
  datatype Product = Product(name: Value, price: int, stock: int, createdBy: int)

  /** The JSON object returned for a created product. */
  datatype ProductView = ProductView(id: int, name: Value, price: int, stock: int)

  datatype User = User(role: string)

  /** Product ids are positive and below the next id to hand out. */
  predicate CatalogValid(products: map<int, Product>, nextId: int)
  {
    1 <= nextId && forall id :: id in products ==> 1 <= id < nextId
  }

  /** `data` is present and truthy (a non-empty JSON object). */
  predicate HasData(data: Option<map<string, Value>>)
  {
    data.Some? && data.value != map[]
  }

  /** Everything the validator asks of a product payload. */
  predicate WellFormed(data: Option<map<string, Value>>)
  {
    && HasData(data)
    && Truthy(Get(data.value, "name"))
    && IsNumber(Get(data.value, "price"))
    && IsInt(Get(data.value, "stock"))
  }

  /** `validate_product`: None when the payload is acceptable, otherwise the
      message of the first check that fails, in the order data, name, price, stock. */
  function Validate(data: Option<map<string, Value>>): (err: Option<string>)
    ensures err.None? <==> WellFormed(data)
    ensures err == Some(NoDataMessage) <==> !HasData(data)
    ensures err == Some(NameMessage) <==> HasData(data) && !Truthy(Get(data.value, "name"))
    ensures err == Some(PriceMessage) <==>
      HasData(data) && Truthy(Get(data.value, "name")) && !IsNumber(Get(data.value, "price"))
    ensures err == Some(StockMessage) <==>
      HasData(data) && Truthy(Get(data.value, "name")) && IsNumber(Get(data.value, "price"))
      && !IsInt(Get(data.value, "stock"))
  {
    if !HasData(data) then Some(NoDataMessage)
    else if !Truthy(Get(data.value, "name")) then Some(NameMessage)
    else if !IsNumber(Get(data.value, "price")) then Some(PriceMessage)
    else if !IsInt(Get(data.value, "stock")) then Some(StockMessage)
    else None
  }

  /** A validated JSON price in minor units. */
  function PriceOf(v: Value): int
    requires IsNumber(v)
  {
    if v.Float? then v.hundredths else IntValue(v) * MinorPerMajor
  }

  /** The role test of `admin_required`: the user exists and is an admin. */
  predicate IsAdmin(users: map<int, User>, caller: int)
  {
    caller in users && users[caller].role == "admin"
  }

  /** `admin_required` wrapped around `handler`: the handler runs only for an
      admin; anyone else gets 403 and the handler is not run. */
  function AdminRequired<T>(users: map<int, User>, caller: int, handler: () -> Result<T>): (r: Result<T>)
    ensures IsAdmin(users, caller) ==> r == handler()
    ensures !IsAdmin(users, caller) ==> r == Err(Forbidden(AdminMessage))
  {
    if IsAdmin(users, caller) then handler() else Err(Forbidden(AdminMessage))
  }

  /** `get_products`: the products `caller` created, and only those. */
  function ListOwned(products: map<int, Product>, caller: int): (r: map<int, Product>)
    ensures forall id :: id in r <==> id in products && products[id].createdBy == caller
    ensures forall id :: id in r ==> r[id] == products[id]
  {
    map id | id in products && products[id].createdBy == caller :: products[id]
  }

  /** Adding a product with a fresh id adds it to its creator's listing and to no other. */
  lemma ListOwnedAfterCreate(products: map<int, Product>, id: int, p: Product, u: int)
    requires id !in products
    ensures ListOwned(products[id := p], u)
         == if p.createdBy == u then ListOwned(products, u)[id := p] else ListOwned(products, u)
  {
    var after, before := ListOwned(products[id := p], u), ListOwned(products, u);
    if p.createdBy == u {
      assert after.Keys == before.Keys + {id};
    } else {
      assert after.Keys == before.Keys;
    }
  }

  /** Removing a product removes it from every listing and changes nothing else. */
  lemma ListOwnedAfterDelete(products: map<int, Product>, id: int, u: int)
    ensures ListOwned(products - {id}, u) == ListOwned(products, u) - {id}
  {
    assert ListOwned(products - {id}, u).Keys == ListOwned(products, u).Keys - {id};
  }

  /** The validator checks types only: a negative price and a negative stock pass. */
  lemma NegativePriceAndStockAccepted()
    ensures Validate(Some(map["name" := Str("Mug"), "price" := Int(-5), "stock" := Int(-1)])) == None
  {
    var d := map["name" := Str("Mug"), "price" := Int(-5), "stock" := Int(-1)];
    assert "name" in d && Get(d, "name") == Str("Mug");
    assert Get(d, "price") == Int(-5) && Get(d, "stock") == Int(-1);
  }

  /** `isinstance(True, int)` holds in Python, so a boolean stock passes as an integer. */
  lemma BooleanStockAccepted()
    ensures Validate(Some(map["name" := Str("Mug"), "price" := Float(250), "stock" := Bool(true)])) == None
  {
    var d := map["name" := Str("Mug"), "price" := Float(250), "stock" := Bool(true)];
    assert "name" in d && Get(d, "name") == Str("Mug");
    assert Get(d, "price") == Float(250) && Get(d, "stock") == Bool(true);
  }
}
