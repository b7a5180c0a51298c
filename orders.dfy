/** The order workflow of backend/routes/orders.py: how a checkout request is
    read, the line-by-line reservation it performs (as a specification the
    imperative Backend.Store.Checkout is proved against), what a committed
    checkout means for stock, items and total, the per-owner order listing,
    and the unpaid-to-paid transition. */
module Orders {
  import opened Http
  import opened Json
  import opened Products

  const NoItemsMessage := "No items provided"
  const NotListMessage := "Items must be a non-empty list"
  const BadLineMessage := "Invalid product or quantity"
  const UnavailableMessage := "Invalid product or insufficient stock"
  const FailedMessage := "Checkout failed"
  const NotFoundMessage := "Order not found"
  const AlreadyPaidMessage := "Order already paid"

  datatype Status = Unpaid | Paid

  /** One line of an order, with the unit price captured at checkout. */
  datatype OrderItem = OrderItem(productId: int, quantity: int, price: int)

  datatype Order = Order(userId: int, total: int, status: Status, items: seq<OrderItem>)

  /** A request line that passed the per-line checks. */
  datatype Line = Line(productId: int, quantity: int)

  /** The catalog and the order items after a prefix of the request has been processed. */
  datatype Reservation = Reservation(products: map<int, Product>, items: seq<OrderItem>)

  /** The body of a 201 checkout response. */
  datatype Placement = Placement(orderId: int, total: int)

  /** One entry of the `get_orders` response. */
  datatype Summary = Summary(total: int, status: Status)

  /** The body of a 200 payment response. */
  datatype Receipt = Receipt(orderId: int, status: Status)

  /** A payment response together with the order ledger it leaves behind. */
  datatype Payment = Payment(response: Result<Receipt>, orders: map<int, Order>)

  // ---------------------------------------------------------------------
  // Reading the request

  /** The request-level checks of `checkout`: the body carries `items`, and
      `items` is a non-empty list. */
  function RequestItems(body: Option<map<string, Value>>): (r: Result<seq<Value>>)
    ensures r.Ok? <==> body.Some? && "items" in body.value
                       && body.value["items"].List? && body.value["items"].elems != []
    ensures r.Ok? ==> r.value == body.value["items"].elems
    ensures r == Err(BadRequest(NoItemsMessage)) <==> body.None? || "items" !in body.value
    ensures r.Err? ==> r.error.BadRequest?
    ensures r == Err(BadRequest(NotListMessage)) <==>
      body.Some? && "items" in body.value
      && (!body.value["items"].List? || body.value["items"].elems == [])
  {
    if body.None? || body.value == map[] || "items" !in body.value then Err(BadRequest(NoItemsMessage))
    else
      var items := body.value["items"];
      if !items.List? || items.elems == [] then Err(BadRequest(NotListMessage))
      else Ok(items.elems)
  }

  /** The per-line checks of `checkout`. An item that is not a JSON object
      makes `item.get` raise, which ends in the generic 500 path. A truthy
      product id that is not an integer names no product here, although a
      database may coerce a numeric string to an id. */
  function ReadLine(item: Value): (r: Result<Line>)
    ensures !item.Dict? ==> r == Err(InternalError(FailedMessage))
    ensures r.Ok? <==>
      && item.Dict?
      && Truthy(Get(item.fields, "product_id")) && IsInt(Get(item.fields, "product_id"))
      && IsInt(Get(item.fields, "quantity")) && IntValue(Get(item.fields, "quantity")) > 0
    ensures r.Ok? ==> r.value.quantity > 0
                      && r.value.productId == IntValue(Get(item.fields, "product_id"))
                      && r.value.quantity == IntValue(Get(item.fields, "quantity"))
    ensures item.Dict? && r.Err? ==> r.error.BadRequest?
    ensures r == Err(BadRequest(BadLineMessage)) <==>
      && item.Dict?
      && (|| !Truthy(Get(item.fields, "product_id"))
          || !IsInt(Get(item.fields, "quantity")) || IntValue(Get(item.fields, "quantity")) <= 0)
    ensures r == Err(BadRequest(UnavailableMessage)) <==>
      && item.Dict?
      && Truthy(Get(item.fields, "product_id")) && !IsInt(Get(item.fields, "product_id"))
      && IsInt(Get(item.fields, "quantity")) && IntValue(Get(item.fields, "quantity")) > 0
  {
    if !item.Dict? then Err(InternalError(FailedMessage))
    else
      var pid, qty := Get(item.fields, "product_id"), Get(item.fields, "quantity");
      if !Truthy(pid) || !IsInt(qty) || IntValue(qty) <= 0 then Err(BadRequest(BadLineMessage))
      else if !IsInt(pid) then Err(BadRequest(UnavailableMessage))
      else Ok(Line(IntValue(pid), IntValue(qty)))
  }

  /** The lines of the whole request, when every item passes its line checks. */
  function ReadAll(items: seq<Value>): Option<seq<Line>>
    decreases |items|
  {
    if items == [] then Some([])
    else
      var prior, last := ReadAll(items[..|items| - 1]), ReadLine(items[|items| - 1]);
      if prior.None? || last.Err? then None else Some(prior.value + [last.value])
  }

  /** Every item reads as a line exactly when all do, and then line k is read from item k. */
  lemma {:induction false} ReadAllLines(items: seq<Value>)
    ensures ReadAll(items).Some? <==> forall k :: 0 <= k < |items| ==> ReadLine(items[k]).Ok?
    ensures ReadAll(items).Some? ==>
      |ReadAll(items).value| == |items|
      && forall k :: 0 <= k < |items| ==> ReadAll(items).value[k] == ReadLine(items[k]).value
    decreases |items|
  {
    if items != [] {
      var n := |items| - 1;
      ReadAllLines(items[..n]);
      assert forall k :: 0 <= k < n ==> items[..n][k] == items[k];
    }
  }

  // ---------------------------------------------------------------------
  // The reservation, line by line

  /** Total quantity the lines ask of product `id`. */
  function Demand(lines: seq<Line>, id: int): int
    decreases |lines|
  {
    if lines == [] then 0
    else
      var last := lines[|lines| - 1];
      Demand(lines[..|lines| - 1], id) + (if last.productId == id then last.quantity else 0)
  }

  lemma DemandSnoc(lines: seq<Line>, l: Line, id: int)
    ensures Demand(lines + [l], id) == Demand(lines, id) + (if l.productId == id then l.quantity else 0)
  {
    assert (lines + [l])[..|lines|] == lines;
  }

  /** A product that no line names is asked for nothing. */
  lemma {:induction false} DemandUnnamed(lines: seq<Line>, id: int)
    requires forall k :: 0 <= k < |lines| ==> lines[k].productId != id
    ensures Demand(lines, id) == 0
    decreases |lines|
  {
    if lines != [] {
      var n := |lines| - 1;
      assert forall k :: 0 <= k < n ==> lines[..n][k] == lines[k];
      DemandUnnamed(lines[..n], id);
    }
  }

  /** Σ price × quantity over the items. */
  function Total(items: seq<OrderItem>): int
    decreases |items|
  {
    if items == [] then 0
    else
      var last := items[|items| - 1];
      Total(items[..|items| - 1]) + last.price * last.quantity
  }

  lemma TotalSnoc(items: seq<OrderItem>, it: OrderItem)
    ensures Total(items + [it]) == Total(items) + it.price * it.quantity
  {
    assert (items + [it])[..|items|] == items;
  }

  /** Every line names a product of `c`, and `c` holds enough stock of every
      named product for the combined quantity of all the lines that name it. */
  predicate Fits(c: map<int, Product>, lines: seq<Line>)
  {
    forall k :: 0 <= k < |lines| ==>
      lines[k].productId in c && Demand(lines, lines[k].productId) <= c[lines[k].productId].stock
  }

  /** The catalog with each product's stock reduced by the lines' demand for it. */
  function Reserved(c: map<int, Product>, lines: seq<Line>): (r: map<int, Product>)
    ensures r.Keys == c.Keys
  {
    map id | id in c :: c[id].(stock := c[id].stock - Demand(lines, id))
  }

  /** One order item per line, in line order, priced from the catalog `c`. */
  function ItemsOf(c: map<int, Product>, lines: seq<Line>): (r: seq<OrderItem>)
    requires forall k :: 0 <= k < |lines| ==> lines[k].productId in c
    ensures |r| == |lines|
    ensures forall k :: 0 <= k < |lines| ==>
      r[k] == OrderItem(lines[k].productId, lines[k].quantity, c[lines[k].productId].price)
    decreases |lines|
  {
    if lines == [] then []
    else
      var n := |lines| - 1;
      ItemsOf(c, lines[..n]) + [OrderItem(lines[n].productId, lines[n].quantity, c[lines[n].productId].price)]
  }

  /** One pass of the checkout loop body: read the line, look the product up
      in the catalog as it stands after the earlier lines, check its remaining
      stock, reduce it and record the item at the current price. */
  function Step(res: Reservation, item: Value): Result<Reservation>
  {
    var line := ReadLine(item);
    if line.Err? then Err(line.error)
    else
      var id, qty := line.value.productId, line.value.quantity;
      if id !in res.products || res.products[id].stock < qty then Err(BadRequest(UnavailableMessage))
      else
        var p := res.products[id];
        Ok(Reservation(res.products[id := p.(stock := p.stock - qty)],
                       res.items + [OrderItem(id, qty, p.price)]))
  }

  /** A pass fails with the line's own error when the line does not read, and
      with 400 "Invalid product or insufficient stock" exactly when a line that
      reads names a product missing from the catalog or one whose remaining
      stock is below the quantity. */
  lemma StepRefusals(res: Reservation, item: Value)
    ensures ReadLine(item).Err? ==> Step(res, item) == Err(ReadLine(item).error)
    ensures ReadLine(item).Ok? ==>
      var id, qty := ReadLine(item).value.productId, ReadLine(item).value.quantity;
      && (Step(res, item).Err? <==> id !in res.products || res.products[id].stock < qty)
      && (Step(res, item).Err? ==> Step(res, item) == Err(BadRequest(UnavailableMessage)))
  {
  }

  /** The checkout loop over `items` against catalog `c`, stopping at the first failing line. */
  function Run(c: map<int, Product>, items: seq<Value>): Result<Reservation>
    decreases |items|
  {
    if items == [] then Ok(Reservation(c, []))
    else
      var prior := Run(c, items[..|items| - 1]);
      if prior.Err? then prior else Step(prior.value, items[|items| - 1])
  }

  /** Processing one more item is one more step of the loop. */
  lemma RunPrefix(c: map<int, Product>, items: seq<Value>, i: nat)
    requires i < |items|
    ensures Run(c, items[..i + 1])
         == if Run(c, items[..i]).Err? then Run(c, items[..i]) else Step(Run(c, items[..i]).value, items[i])
  {
    assert items[..i + 1][..i] == items[..i];
  }

  /** A failure on some line is the failure of the whole request. */
  lemma {:induction false} RunStopsAtFailure(c: map<int, Product>, items: seq<Value>, i: nat)
    requires i <= |items| && Run(c, items[..i]).Err?
    ensures Run(c, items) == Run(c, items[..i])
    decreases |items|
  {
    if i < |items| {
      var n := |items| - 1;
      assert items[..n][..i] == items[..i];
      RunStopsAtFailure(c, items[..n], i);
    } else {
      assert items[..i] == items;
    }
  }

  lemma ReservedSnoc(c: map<int, Product>, lines: seq<Line>, l: Line)
    requires l.productId in c
    ensures Reserved(c, lines + [l])
         == Reserved(c, lines)[l.productId := Reserved(c, lines)[l.productId].(stock := Reserved(c, lines)[l.productId].stock - l.quantity)]
  {
    forall id | id in c
      ensures Demand(lines + [l], id) == Demand(lines, id) + (if l.productId == id then l.quantity else 0)
    {
      DemandSnoc(lines, l, id);
    }
  }

  lemma ItemsOfSnoc(c: map<int, Product>, lines: seq<Line>, l: Line)
    requires forall k :: 0 <= k < |lines| ==> lines[k].productId in c
    requires l.productId in c
    ensures ItemsOf(c, lines + [l]) == ItemsOf(c, lines) + [OrderItem(l.productId, l.quantity, c[l.productId].price)]
  {
    assert (lines + [l])[..|lines|] == lines;
  }

  /** Appending a line whose product still has enough stock after the earlier
      lines keeps the lines fitting the catalog. */
  lemma FitsSnoc(c: map<int, Product>, lines: seq<Line>, l: Line)
    requires Fits(c, lines)
    requires l.productId in c && c[l.productId].stock - Demand(lines, l.productId) >= l.quantity
    ensures Fits(c, lines + [l])
  {
    forall k | 0 <= k < |lines + [l]|
      ensures (lines + [l])[k].productId in c
      ensures Demand(lines + [l], (lines + [l])[k].productId) <= c[(lines + [l])[k].productId].stock
    {
      DemandSnoc(lines, l, (lines + [l])[k].productId);
    }
  }

  /** One successful step from the reservation of `lines` is the reservation of one more line. */
  lemma StepReserves(c: map<int, Product>, lines: seq<Line>, item: Value)
    requires Fits(c, lines)
    requires Step(Reservation(Reserved(c, lines), ItemsOf(c, lines)), item).Ok?
    ensures ReadLine(item).Ok?
    ensures Fits(c, lines + [ReadLine(item).value])
    ensures Step(Reservation(Reserved(c, lines), ItemsOf(c, lines)), item).value
         == Reservation(Reserved(c, lines + [ReadLine(item).value]), ItemsOf(c, lines + [ReadLine(item).value]))
  {
    var l := ReadLine(item).value;
    assert l.productId in c && c[l.productId].stock - Demand(lines, l.productId) >= l.quantity;
    FitsSnoc(c, lines, l);
    ReservedSnoc(c, lines, l);
    ItemsOfSnoc(c, lines, l);
  }

  /** A loop that gets through every line has read every line, the lines fit
      the catalog, and its result is the reserved catalog and the priced items. */
  lemma {:induction false} RunOk(c: map<int, Product>, items: seq<Value>)
    requires Run(c, items).Ok?
    ensures ReadAll(items).Some?
    ensures Fits(c, ReadAll(items).value)
    ensures Run(c, items).value == Reservation(Reserved(c, ReadAll(items).value), ItemsOf(c, ReadAll(items).value))
    decreases |items|
  {
    if items == [] {
      assert Reserved(c, []) == c;
    } else {
      var n := |items| - 1;
      var prior := Run(c, items[..n]);
      assert prior.Ok? && Run(c, items) == Step(prior.value, items[n]);
      RunOk(c, items[..n]);
      StepReserves(c, ReadAll(items[..n]).value, items[n]);
    }
  }

  /** Conversely, when every line reads and the lines fit the catalog, the loop gets through. */
  lemma {:induction false} RunFits(c: map<int, Product>, items: seq<Value>)
    requires ReadAll(items).Some? && Fits(c, ReadAll(items).value)
    ensures Run(c, items).Ok?
    decreases |items|
  {
    if items != [] {
      var n := |items| - 1;
      var lines := ReadAll(items[..n]).value;
      var l := ReadLine(items[n]).value;
      assert ReadAll(items).value == lines + [l];
      forall k | 0 <= k < |lines|
        ensures lines[k].productId in c && Demand(lines, lines[k].productId) <= c[lines[k].productId].stock
      {
        assert (lines + [l])[k] == lines[k];
        DemandSnoc(lines, l, lines[k].productId);
      }
      RunFits(c, items[..n]);
      RunOk(c, items[..n]);
      assert (lines + [l])[|lines|] == l;
      DemandSnoc(lines, l, l.productId);
    }
  }

  /** Running `a` and then `b` from the catalog `a` leaves is running `a + b`. */
  lemma {:induction false} RunAppend(c: map<int, Product>, a: seq<Value>, b: seq<Value>)
    ensures Run(c, a + b)
         == match Run(c, a)
            case Err(e) => Err(e)
            case Ok(ra) =>
              match Run(ra.products, b)
              case Err(e) => Err(e)
              case Ok(rb) => Ok(Reservation(rb.products, ra.items + rb.items))
    decreases |b|
  {
    if b == [] {
      assert a + b == a;
      if Run(c, a).Ok? {
        assert Run(c, a).value.items + [] == Run(c, a).value.items;
      }
    } else {
      var n := |b| - 1;
      assert (a + b)[..|a + b| - 1] == a + b[..n];
      assert (a + b)[|a + b| - 1] == b[n];
      RunAppend(c, a, b[..n]);
      if Run(c, a).Ok? && Run(Run(c, a).value.products, b[..n]).Ok? {
        StepAfterItems(Run(Run(c, a).value.products, b[..n]).value, Run(c, a).value.items, b[n]);
      }
    }
  }

  /** A step does not look at the items recorded so far. */
  lemma StepAfterItems(res: Reservation, earlier: seq<OrderItem>, item: Value)
    ensures Step(Reservation(res.products, earlier + res.items), item)
         == match Step(res, item)
            case Err(e) => Err(e)
            case Ok(r) => Ok(Reservation(r.products, earlier + r.items))
  {
    if Step(res, item).Ok? {
      var l := ReadLine(item).value;
      var it := OrderItem(l.productId, l.quantity, res.products[l.productId].price);
      assert earlier + (res.items + [it]) == (earlier + res.items) + [it];
    }
  }

  /** Two checkouts one after the other: once the first has committed, the
      second commits exactly when a single checkout of both requests' lines
      would commit against the original catalog, and it leaves the same stock. */
  lemma BackToBackCheckouts(c: map<int, Product>, a: seq<Value>, b: seq<Value>)
    requires Run(c, a).Ok?
    ensures Run(Run(c, a).value.products, b).Ok? <==> Run(c, a + b).Ok?
    ensures Run(c, a + b).Ok? ==>
      Run(Run(c, a).value.products, b).value.products == Run(c, a + b).value.products
  {
    RunAppend(c, a, b);
  }

  // ---------------------------------------------------------------------
  // What a checkout means

  /** The outcome of `checkout` on catalog `c`: the request checks, then the loop. */
  function CheckoutOutcome(c: map<int, Product>, body: Option<map<string, Value>>): Result<Reservation>
  {
    match RequestItems(body)
    case Err(e) => Err(e)
    case Ok(items) => Run(c, items)
  }

  /** The request is well formed, every line is valid, and the combined demand fits the stock. */
  predicate Committable(c: map<int, Product>, body: Option<map<string, Value>>)
  {
    && RequestItems(body).Ok?
    && ReadAll(RequestItems(body).value).Some?
    && Fits(c, ReadAll(RequestItems(body).value).value)
  }

  /** All or nothing: a checkout commits exactly when the whole request is committable. */
  lemma CheckoutCommitsIff(c: map<int, Product>, body: Option<map<string, Value>>)
    ensures CheckoutOutcome(c, body).Ok? <==> Committable(c, body)
  {
    if RequestItems(body).Ok? {
      var items := RequestItems(body).value;
      if Run(c, items).Ok? {
        RunOk(c, items);
      } else if ReadAll(items).Some? && Fits(c, ReadAll(items).value) {
        RunFits(c, items);
      }
    }
  }

  /** After a committed checkout each product's stock has fallen by exactly the
      quantity the request asked of it across all lines; a product no line names
      is untouched; no named product is left with negative stock. */
  lemma CheckoutStock(c: map<int, Product>, body: Option<map<string, Value>>)
    requires CheckoutOutcome(c, body).Ok?
    ensures ReadAll(RequestItems(body).value).Some?
    ensures Fits(c, ReadAll(RequestItems(body).value).value)
    ensures var lines := ReadAll(RequestItems(body).value).value;
            var after := CheckoutOutcome(c, body).value.products;
            && after.Keys == c.Keys
            && (forall id :: id in c ==> after[id] == c[id].(stock := c[id].stock - Demand(lines, id)))
            && (forall k :: 0 <= k < |lines| ==> after[lines[k].productId].stock >= 0)
            && (forall id :: id in c && (forall k :: 0 <= k < |lines| ==> lines[k].productId != id)
                  ==> after[id] == c[id])
  {
    var items := RequestItems(body).value;
    RunOk(c, items);
    ReservedStock(c, ReadAll(items).value);
  }

  lemma ReservedStock(c: map<int, Product>, lines: seq<Line>)
    requires Fits(c, lines)
    ensures forall k :: 0 <= k < |lines| ==> Reserved(c, lines)[lines[k].productId].stock >= 0
    ensures forall id :: id in c && (forall k :: 0 <= k < |lines| ==> lines[k].productId != id)
              ==> Reserved(c, lines)[id] == c[id]
  {
    forall id | id in c && (forall k :: 0 <= k < |lines| ==> lines[k].productId != id)
      ensures Reserved(c, lines)[id] == c[id]
    {
      DemandUnnamed(lines, id);
    }
  }

  /** After a committed checkout the order has one item per request line, in
      request order, each with the line's product and quantity and the price
      the product had at checkout; the total is Σ price × quantity over them. */
  lemma CheckoutItems(c: map<int, Product>, body: Option<map<string, Value>>)
    requires CheckoutOutcome(c, body).Ok?
    ensures forall k :: 0 <= k < |RequestItems(body).value| ==> ReadLine(RequestItems(body).value[k]).Ok?
    ensures var items := RequestItems(body).value;
            var placed := CheckoutOutcome(c, body).value.items;
            && |placed| == |items|
            && forall k :: 0 <= k < |items| ==>
                 var line := ReadLine(items[k]).value;
                 line.productId in c && placed[k] == OrderItem(line.productId, line.quantity, c[line.productId].price)
  {
    var items := RequestItems(body).value;
    RunOk(c, items);
    ReadAllLines(items);
  }

  /** The worked example: 3 of a product priced 10.00 with 5 in stock commits
      for 30.00 and leaves 2; the same request again is then refused. */
  lemma RepeatCheckoutRefused()
    ensures var c := map[1 := Product(Str("Mug"), 1000, 5, 7)];
            var item := Dict(map["product_id" := Int(1), "quantity" := Int(3)]);
            var first := Run(c, [item]);
            && first.Ok?
            && first.value.products[1].stock == 2
            && Total(first.value.items) == 3000
            && Run(first.value.products, [item]) == Err(BadRequest(UnavailableMessage))
  {
    var c := map[1 := Product(Str("Mug"), 1000, 5, 7)];
    var fields := map["product_id" := Int(1), "quantity" := Int(3)];
    var item := Dict(fields);
    assert Get(fields, "product_id") == Int(1) && Get(fields, "quantity") == Int(3);
    assert ReadLine(item) == Ok(Line(1, 3));
    assert [item][..0] == [];
    assert Run(c, [item]) == Step(Reservation(c, []), item);
    var after := c[1 := c[1].(stock := 2)];
    assert c[1].stock >= 3 && after == c[1 := c[1].(stock := c[1].stock - 3)];
    assert [] + [OrderItem(1, 3, 1000)] == [OrderItem(1, 3, 1000)];
    assert Step(Reservation(c, []), item) == Ok(Reservation(after, [OrderItem(1, 3, 1000)]));
    assert [OrderItem(1, 3, 1000)][..0] == [];
    assert Run(after, [item]) == Step(Reservation(after, []), item);
  }

  /** Two lines for the same product are checked against the stock left by the
      first: each fits the stock of 5 alone, together they do not. */
  lemma RepeatedProductMustFitCombined()
    ensures var c := map[1 := Product(Str("Mug"), 1000, 5, 7)];
            var item := Dict(map["product_id" := Int(1), "quantity" := Int(3)]);
            Run(c, [item]).Ok? && Run(c, [item, item]) == Err(BadRequest(UnavailableMessage))
  {
    var c := map[1 := Product(Str("Mug"), 1000, 5, 7)];
    var fields := map["product_id" := Int(1), "quantity" := Int(3)];
    var item := Dict(fields);
    assert Get(fields, "product_id") == Int(1) && Get(fields, "quantity") == Int(3);
    assert ReadLine(item) == Ok(Line(1, 3));
    assert [item][..0] == [] && [item, item][..1] == [item];
  }

  // ---------------------------------------------------------------------
  // Listing and paying

  /** `get_orders`: the caller's orders, and only those, with total and status. */
  function OrdersOf(orders: map<int, Order>, caller: int): (r: map<int, Summary>)
    ensures forall id :: id in r <==> id in orders && orders[id].userId == caller
    ensures forall id :: id in r ==> r[id] == Summary(orders[id].total, orders[id].status)
  {
    map id | id in orders && orders[id].userId == caller :: Summary(orders[id].total, orders[id].status)
  }

  /** A newly placed order shows up in its owner's listing and in no other. */
  lemma OrdersOfAfterPlace(orders: map<int, Order>, id: int, o: Order, u: int)
    requires id !in orders
    ensures OrdersOf(orders[id := o], u)
         == if o.userId == u then OrdersOf(orders, u)[id := Summary(o.total, o.status)] else OrdersOf(orders, u)
  {
    var after, before := OrdersOf(orders[id := o], u), OrdersOf(orders, u);
    if o.userId == u {
      assert after.Keys == before.Keys + {id};
    } else {
      assert after.Keys == before.Keys;
    }
  }

  /** The ledger only grows, and an existing order changes at most by going
      from unpaid to paid. */
  predicate LedgerGrows(before: map<int, Order>, after: map<int, Order>)
  {
    forall id | id in before ::
      id in after
      && (after[id] == before[id] || (before[id].status.Unpaid? && after[id] == before[id].(status := Paid)))
  }

  /** Order ids are positive and below the next id to hand out, and every
      order's total is Σ price × quantity over its items. */
  predicate LedgerValid(orders: map<int, Order>, nextId: int)
  {
    && 1 <= nextId
    && forall id :: id in orders ==> 1 <= id < nextId && orders[id].total == Total(orders[id].items)
  }

  /** Storing an order under the next id keeps the ledger valid and only adds to it. */
  lemma PlaceKeepsLedgerValid(orders: map<int, Order>, nextId: int, o: Order)
    requires LedgerValid(orders, nextId) && o.total == Total(o.items)
    ensures nextId !in orders
    ensures LedgerValid(orders[nextId := o], nextId + 1)
    ensures LedgerGrows(orders, orders[nextId := o])
  {
  }

  /** `pay_order`: 404 for a missing or foreign order, 400 for one already
      paid, otherwise that order alone becomes paid. */
  function Pay(orders: map<int, Order>, caller: int, id: int): (p: Payment)
    ensures p.response.Ok? <==> id in orders && orders[id].userId == caller && orders[id].status.Unpaid?
    ensures p.response == Err(NotFound(NotFoundMessage)) <==> id !in orders || orders[id].userId != caller
    ensures p.response == Err(BadRequest(AlreadyPaidMessage)) <==>
      id in orders && orders[id].userId == caller && orders[id].status.Paid?
    ensures p.orders.Keys == orders.Keys
    ensures p.response.Err? ==> p.orders == orders
    ensures p.response.Ok? ==> p.response.value == Receipt(id, Paid) && p.orders[id] == orders[id].(status := Paid)
    ensures forall j :: j in orders && j != id ==> p.orders[j] == orders[j]
    ensures LedgerGrows(orders, p.orders)
  {
    if id !in orders || orders[id].userId != caller then Payment(Err(NotFound(NotFoundMessage)), orders)
    else if orders[id].status.Paid? then Payment(Err(BadRequest(AlreadyPaidMessage)), orders)
    else Payment(Ok(Receipt(id, Paid)), orders[id := orders[id].(status := Paid)])
  }

  /** Paying does not change which orders a user sees, only their status. */
  lemma OrdersOfAfterPay(orders: map<int, Order>, caller: int, id: int, u: int)
    ensures OrdersOf(Pay(orders, caller, id).orders, u).Keys == OrdersOf(orders, u).Keys
  {
  }

  /** Paying twice: the second request is refused with 400 and changes nothing. */
  lemma PayTwiceRefused(orders: map<int, Order>, caller: int, id: int)
    requires Pay(orders, caller, id).response.Ok?
    ensures var after := Pay(orders, caller, id).orders;
            Pay(after, caller, id) == Payment(Err(BadRequest(AlreadyPaidMessage)), after)
  {
  }
}
