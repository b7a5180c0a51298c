/** The database session the route handlers share: the product table and the
    order ledger, with fresh-id counters standing in for the database's id
    generation. The methods are the handlers of backend/routes/products.py and
    backend/routes/orders.py that change these tables. */
module Backend {
  import opened Http
  import opened Json
  import opened Products
  import opened Orders

  class Store {
    var products: map<int, Product>
    var orders: map<int, Order>
    var nextProductId: int
    var nextOrderId: int

    /** Ids are positive and below the counters, and every stored order's
        total is Σ price × quantity over its items. */
    ghost predicate Valid()
      reads this
    {
      CatalogValid(products, nextProductId) && LedgerValid(orders, nextOrderId)
    }

    constructor ()
      ensures Valid()
      ensures products == map[] && orders == map[]
    {
      products, orders := map[], map[];
      nextProductId, nextOrderId := 1, 1;
    }

    /** `create_product`: 400 with the validator's message and no change, or
        exactly one new product owned by `caller` under a fresh id. */
    method CreateProduct(caller: int, data: Option<map<string, Value>>) returns (r: Result<ProductView>)
      requires Valid()
      modifies this
      ensures Valid()
      ensures orders == old(orders) && nextOrderId == old(nextOrderId)
      ensures Validate(data).Some? ==>
        r == Err(BadRequest(Validate(data).value))
        && products == old(products) && nextProductId == old(nextProductId)
      ensures Validate(data).None? ==>
        var p := Product(Get(data.value, "name"), PriceOf(Get(data.value, "price")),
                         IntValue(Get(data.value, "stock")), caller);
        && old(nextProductId) !in old(products)
        && r == Ok(ProductView(old(nextProductId), p.name, p.price, p.stock))
        && products == old(products)[old(nextProductId) := p]
        && nextProductId == old(nextProductId) + 1
    {
      var error := Validate(data);
      if error.Some? {
        return Err(BadRequest(error.value));
      }
      var product := Product(Get(data.value, "name"), PriceOf(Get(data.value, "price")),
                             IntValue(Get(data.value, "stock")), caller);
      var id := nextProductId;
      products := products[id := product];
      nextProductId := nextProductId + 1;
      r := Ok(ProductView(id, product.name, product.price, product.stock));
    }

    /** `delete_product`: only the product's creator may delete it; anyone
        else, or a missing id, gets 403 and the catalog is unchanged. */
    method DeleteProduct(caller: int, id: int) returns (r: Result<string>)
      requires Valid()
      modifies this
      ensures Valid()
      ensures orders == old(orders) && nextOrderId == old(nextOrderId) && nextProductId == old(nextProductId)
      ensures id in old(products) && old(products)[id].createdBy == caller ==>
        r == Ok(DeletedMessage) && products == old(products) - {id}
      ensures !(id in old(products) && old(products)[id].createdBy == caller) ==>
        r == Err(Forbidden(DeleteMessage)) && products == old(products)
    {
      if id !in products || products[id].createdBy != caller {
        return Err(Forbidden(DeleteMessage));
      }
      products := products - {id};
      r := Ok(DeletedMessage);
    }

    /** `checkout`: on a committable request, reduces stock line by line,
        records one item per line and stores one new unpaid order for `caller`
        whose total is Σ price × quantity; on any failure, the state at entry
        is restored. */
    method Checkout(caller: int, body: Option<map<string, Value>>) returns (r: Result<Placement>)
      requires Valid()
      modifies this
      ensures Valid()
      ensures nextProductId == old(nextProductId)
      ensures LedgerGrows(old(orders), orders)
      ensures CheckoutOutcome(old(products), body).Err? ==>
        && r == Err(CheckoutOutcome(old(products), body).error)
        && products == old(products) && orders == old(orders) && nextOrderId == old(nextOrderId)
      ensures CheckoutOutcome(old(products), body).Ok? ==>
        var res := CheckoutOutcome(old(products), body).value;
        && old(nextOrderId) !in old(orders)
        && r == Ok(Placement(old(nextOrderId), Total(res.items)))
        && products == res.products
        && orders == old(orders)[old(nextOrderId) := Order(caller, Total(res.items), Unpaid, res.items)]
        && nextOrderId == old(nextOrderId) + 1
    {
      var request := RequestItems(body);
      if request.Err? {
        return Err(request.error);
      }
      r := PlaceOrder(caller, request.value);
    }

    /** The transactional part of `checkout`, once `items` is a non-empty
        list: a provisional order, the loop over the lines, then either the
        commit of the order with its total or a rollback to the state at entry. */
    method PlaceOrder(caller: int, items: seq<Value>) returns (r: Result<Placement>)
      requires Valid()
      modifies this
      ensures Valid()
      ensures nextProductId == old(nextProductId)
      ensures LedgerGrows(old(orders), orders)
      ensures Run(old(products), items).Err? ==>
        && r == Err(Run(old(products), items).error)
        && products == old(products) && orders == old(orders) && nextOrderId == old(nextOrderId)
      ensures Run(old(products), items).Ok? ==>
        var res := Run(old(products), items).value;
        && old(nextOrderId) !in old(orders)
        && r == Ok(Placement(old(nextOrderId), Total(res.items)))
        && products == res.products
        && orders == old(orders)[old(nextOrderId) := Order(caller, Total(res.items), Unpaid, res.items)]
        && nextOrderId == old(nextOrderId) + 1
    {
      // the snapshot a rollback restores
      var savedProducts, savedOrders, savedNextOrderId := products, orders, nextOrderId;
      // the provisional order, flushed to obtain its id
      var orderId := nextOrderId;
      orders := orders[orderId := Order(caller, 0, Unpaid, [])];
      nextOrderId := nextOrderId + 1;
      var reserved, total := ReserveItems(items);
      if reserved.Err? {
        products, orders, nextOrderId := savedProducts, savedOrders, savedNextOrderId;
        return Err(reserved.error);
      }
      PlaceKeepsLedgerValid(savedOrders, orderId, Order(caller, total, Unpaid, reserved.value));
      orders := orders[orderId := orders[orderId].(total := total, items := reserved.value)];
      r := Ok(Placement(orderId, total));
    }

    /** The loop of `checkout`: for each line in order, check it, look the
        product up as earlier lines left it, check its remaining stock, reduce
        the stock in place, add the line's subtotal to the running total and
        record the item. Stops at the first failing line, leaving the
        reductions already made for the caller to roll back. */
    method ReserveItems(items: seq<Value>) returns (placed: Result<seq<OrderItem>>, total: int)
      modifies this`products
      ensures products.Keys == old(products).Keys
      ensures placed.Err? ==> Run(old(products), items) == Err(placed.error)
      ensures placed.Ok? ==>
        Run(old(products), items) == Ok(Reservation(products, placed.value)) && total == Total(placed.value)
    {
      total := 0;
      var lines: seq<OrderItem> := [];
      var i := 0;
      while i < |items|
        invariant 0 <= i <= |items|
        invariant Run(old(products), items[..i]) == Ok(Reservation(products, lines))
        invariant products.Keys == old(products).Keys
        invariant total == Total(lines)
      {
        RunPrefix(old(products), items, i);
        var line := ReadLine(items[i]);
        if line.Err? {
          RunStopsAtFailure(old(products), items, i + 1);
          return Err(line.error), total;
        }
        var id, quantity := line.value.productId, line.value.quantity;
        if id !in products || products[id].stock < quantity {
          RunStopsAtFailure(old(products), items, i + 1);
          return Err(BadRequest(UnavailableMessage)), total;
        }
        var product := products[id];
        TotalSnoc(lines, OrderItem(id, quantity, product.price));
        total := total + product.price * quantity;
        products := products[id := product.(stock := product.stock - quantity)];
        lines := lines + [OrderItem(id, quantity, product.price)];
        i := i + 1;
      }
      assert items[..i] == items;
      placed := Ok(lines);
    }

    /** `pay_order`: the transition `Pay` describes, applied to the ledger. */
    method PayOrder(caller: int, orderId: int) returns (r: Result<Receipt>)
      requires Valid()
      modifies this
      ensures Valid()
      ensures products == old(products) && nextProductId == old(nextProductId) && nextOrderId == old(nextOrderId)
      ensures Payment(r, orders) == Pay(old(orders), caller, orderId)
    {
      if orderId !in orders || orders[orderId].userId != caller {
        return Err(NotFound(NotFoundMessage));
      }
      if orders[orderId].status.Paid? {
        return Err(BadRequest(AlreadyPaidMessage));
      }
      orders := orders[orderId := orders[orderId].(status := Paid)];
      r := Ok(Receipt(orderId, Paid));
    }
  }
}
