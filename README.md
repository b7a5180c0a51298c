# Checkout and catalog core of a small e-commerce API

This project models, in Dafny, the order workflow of a Flask e-commerce
backend and the product catalog it reads and writes:

- **Checkout** (`backend/routes/orders.py`): a caller submits a list of
  `{product_id, quantity}` lines. The handler creates a provisional order and
  walks the lines in order. For each line it checks the line, looks the product
  up, checks its *remaining* stock, reduces the stock in place, adds
  price × quantity to a running total and records an order item. It then
  stores the total and commits. Any failing line rolls back everything, so a
  checkout is all or nothing.
- **Order listing and payment** (`backend/routes/orders.py`): `get_orders`
  lists the caller's orders; `pay_order` moves one of the caller's orders from
  unpaid to paid.
- **Catalog** (`backend/routes/products.py`): `validate_product` checks a
  product payload; products are created, listed and deleted per owner; and
  `admin_required` guards admin-only handlers by the caller's role.

The files:

- `json.dfy` (module `Json`): decoded JSON values with Python's truthiness,
  `isinstance(v, int)` (true of booleans too) and `dict.get`.
- `http.dfy` (module `Http`): `Option`, and `Result` with an `Error` per
  status kind the handlers return (400, 403, 404, 500), each with its message.
- `products.dfy` (module `Products`): the product row, the validator, the
  admin guard, the per-owner listing and lemmas about them.
- `orders.dfy` (module `Orders`): the order data, the request and line
  checks, and `Run`, a line-by-line specification of the checkout loop. It
  also holds the lemmas that give `Run` its meaning, the order listing and the
  payment transition.
- `store.dfy` (module `Backend`): class `Store`, the database session shared
  by the handlers. It holds the product table, the order ledger and fresh-id
  counters. Its methods are the handlers that change state: `CreateProduct`,
  `DeleteProduct`, `Checkout` (with `PlaceOrder` and the loop `ReserveItems`)
  and `PayOrder`.

Modelling choices:

- Money is an integer number of minor units (hundredths). A JSON integer price
  `n` is `n * 100`. A JSON number with a fraction is carried as its exact
  count of hundredths. Totals are exact.
- The caller's id is a parameter; a request body is `Option<map<string, Value>>`.
- A rollback restores the state at entry: the product table, the ledger and the
  order-id counter.
- The provisional order is stored with total 0 before the loop, then updated
  with the total and items on commit, as the handler does.

Two behaviours of the code a reader might not expect:

- Paying an order that is already paid is refused with 400 "Order already
  paid" (`backend/routes/orders.py:95-96`). It is not an idempotent success.
  `Orders.PayTwiceRefused` states this.
- Neither price nor stock is checked for sign: `validate_product` checks types
  only (`backend/routes/products.py:14-17`). So `Product.price` and
  `Product.stock` are `int`, and a negative stock can exist. Checkout never
  drives a named product's stock below zero. It refuses any line for a product
  whose stock is negative, because quantities are positive.

## Model

| member | source | states |
|---|---|---|
| `Products.Validate` | backend/routes/products.py:9-18 | The result is None exactly when data is a non-empty object with a truthy name, a numeric price and an integral stock. Otherwise it is the message of the first failing check in the order data, name, price, stock. Each message is characterised by an if-and-only-if. |
| `Products.NegativePriceAndStockAccepted` | backend/routes/products.py:14-17 | A payload with a negative price and a negative stock passes validation. |
| `Products.BooleanStockAccepted` | backend/routes/products.py:16-17 | A boolean stock passes the integer check and a fractional price passes the number check. |
| `Products.AdminRequired` | backend/routes/products.py:21-29 | The wrapped handler's result is returned when the caller exists with role "admin". Otherwise the result is 403 "Admin access required" and the handler is not used. |
| `Products.ListOwned` | backend/routes/products.py:61-68 | The listing holds exactly the products whose creator is the caller, with their stored fields. |
| `Products.ListOwnedAfterCreate` | backend/routes/products.py:41-49 | A product stored under a fresh id appears in its creator's listing and changes no other user's listing. |
| `Products.ListOwnedAfterDelete` | backend/routes/products.py:80-81 | A deleted product disappears from every listing and nothing else in any listing changes. |
| `Backend.Store.CreateProduct` | backend/routes/products.py:34-56 | Invalid data gives 400 with the validator's message and no change. Valid data adds exactly one product under a fresh id, with the payload's name, price (in minor units) and stock and with `created_by` = caller. Existing products and the ledger are unchanged. |
| `Backend.Store.DeleteProduct` | backend/routes/products.py:73-83 | The product is removed only if it exists and the caller created it. Otherwise the result is 403 and the catalog is unchanged. No other product and no order changes either way. |
| `Orders.RequestItems` | backend/routes/orders.py:15-20 | The request passes exactly when the body has `items` and it is a non-empty list. A missing body or key gives 400 "No items provided"; anything else gives 400 "Items must be a non-empty list". |
| `Orders.ReadLine` | backend/routes/orders.py:29-40 | A line passes exactly when it is an object with a truthy integral `product_id` and an integral `quantity` > 0; the line then carries those values. A non-object line raises and ends in the 500 path. An object line with a falsy `product_id` or a missing, non-integral or non-positive `quantity` gets exactly 400 "Invalid product or quantity". An otherwise valid line whose truthy `product_id` is not an integer gets exactly 400 "Invalid product or insufficient stock". |
| `Orders.StepRefusals` | backend/routes/orders.py:32-40 | One pass of the loop fails with the line's own error when the line does not read. For a line that reads, it fails exactly when the product is missing or its remaining stock is below the quantity, and then with 400 "Invalid product or insufficient stock". |
| `Orders.ReadAllLines` | backend/routes/orders.py:28-34 | All lines read exactly when each one does, and then line k is read from item k. |
| `Orders.ItemsOf` | backend/routes/orders.py:47-52 | One order item per line in line order, with the line's product and quantity and the product's current price. |
| `Orders.RunPrefix` | backend/routes/orders.py:28-52 | Processing one more item is one more pass of the loop body over the catalog left by the earlier lines. |
| `Orders.RunStopsAtFailure` | backend/routes/orders.py:32-40 | A line that fails decides the outcome of the whole request, whatever follows it. |
| `Orders.FitsSnoc` | backend/routes/orders.py:38-45 | A line whose product still has enough stock after the earlier lines' reductions keeps the combined demand within stock. |
| `Orders.StepReserves` | backend/routes/orders.py:36-52 | A successful pass from the reservation of some lines is the reservation of those lines plus one. |
| `Orders.RunOk` | backend/routes/orders.py:28-52 | A loop that gets through all lines has read every line, and the combined demand fits the stock. Its result is the catalog with each stock reduced by the demand for it, plus the priced items. |
| `Orders.RunFits` | backend/routes/orders.py:36-40 | When every line reads and every product's combined demand fits its stock, the loop gets through. |
| `Orders.RunAppend` | backend/routes/orders.py:28-52 | Running the lines of one request and then those of another, starting from the catalog the first leaves, gives the same outcome as running all the lines together: the same stock and the items of both in order. |
| `Orders.BackToBackCheckouts` | backend/routes/orders.py:36-45 | After one request's loop succeeds, a second request's loop succeeds exactly when a single request with both sets of lines would succeed against the original catalog, and it leaves the same stock. |
| `Orders.CheckoutCommitsIff` | backend/routes/orders.py:15-65 | All or nothing: a checkout commits if and only if the request is well formed, every line is valid, every product exists and each product's combined quantity over all lines fits its stock. |
| `Orders.CheckoutStock` | backend/routes/orders.py:38-45 | After a commit, the set of products is the same. Each product's stock has fallen by exactly the sum of the quantities requested for it. Products no line names are untouched. No named product's stock is below zero. |
| `Orders.ReservedStock` | backend/routes/orders.py:38-45 | When the demand fits, every named product keeps a non-negative stock and every unnamed product is unchanged. |
| `Orders.CheckoutItems` | backend/routes/orders.py:42-54 | After a commit there is one order item per request line, in request order. Each item has that line's product and quantity and the price the product had at checkout. |
| `Orders.RepeatCheckoutRefused` | backend/routes/orders.py:36-45 | Example: 3 units of a product priced 10.00 with stock 5 commit for 30.00 and leave 2. The same request again is refused with "Invalid product or insufficient stock". |
| `Orders.RepeatedProductMustFitCombined` | backend/routes/orders.py:36-45 | Two lines of 3 for the same product fail against a stock of 5, although one such line alone commits. |
| `Orders.PlaceKeepsLedgerValid` | backend/routes/orders.py:24-26 | Storing an order under the next id with total Σ price × quantity keeps every id fresh and every total consistent. It only adds to the ledger. |
| `Backend.Store.Checkout` | backend/routes/orders.py:11-65 | If the request or any line fails, the result is that failure and the products, the ledger and the id counter are as at entry. On success, the result is the new order's fresh id and total Σ price × quantity. Stock is what the loop leaves, and exactly one unpaid order owned by the caller with those items is added. |
| `Backend.Store.PlaceOrder` | backend/routes/orders.py:22-65 | The same for a non-empty item list: provisional order, loop, then a commit with the total or a rollback to the state at entry. |
| `Backend.Store.ReserveItems` | backend/routes/orders.py:28-52 | The loop reduces stock in place and accumulates the running total. It stops at the first failing line with that line's error. Otherwise it ends with the catalog and items `Run` describes and total = Σ price × quantity. |
| `Orders.OrdersOf` | backend/routes/orders.py:70-82 | The listing holds exactly the orders whose owner is the caller, each with its total and status. |
| `Orders.OrdersOfAfterPlace` | backend/routes/orders.py:72-82 | A newly stored order shows up in its owner's listing and in no other. |
| `Orders.Pay` | backend/routes/orders.py:87-106 | A missing or foreign order gives 404 and an already-paid order gives 400, both with no change. Otherwise only that order becomes paid, with its owner, total and items kept. No other order changes, and the ledger only moves from unpaid to paid. |
| `Backend.Store.PayOrder` | backend/routes/orders.py:87-106 | The response and new ledger are those `Pay` gives. The catalog and the id counters are unchanged. |
| `Orders.OrdersOfAfterPay` | backend/routes/orders.py:98-100 | Paying does not change which orders any user's listing holds. |
| `Orders.PayTwiceRefused` | backend/routes/orders.py:95-96 | After a successful payment, paying the same order again gives 400 "Order already paid" and changes nothing. |

## Left out

- Flask routing, `request.get_json()`, `jsonify` and the success message
  strings ("Order placed", "Payment successful") are not modelled. Responses
  are `Result` values: the error kind and message, or the success fields.
- A JSON body that is not an object is not modelled; the body is an optional object.
- JWT identity extraction and its `int(...)` coercion: the caller id is a parameter.
- `Orders.ReadLine`: a truthy `product_id` that is not an integer (a string,
  a float, a list) is treated as naming no product, so the line is refused
  with 400 "Invalid product or insufficient stock". The handler passes the raw
  value to `Product.query.get` (`backend/routes/orders.py:36`), and the
  database may coerce a numeric string such as `"1"` or an integral float such
  as `1.0` to the id and find the product. So the model refuses lines the
  running program may accept. Other values might make the database raise,
  which would end in the 500 path. Database coercion is not modelled.
- `Orders.Pay`: the already-paid 400 is sent under the JSON key `message`
  (`backend/routes/orders.py:96`), while every other error is sent under
  `error`. The model records only the status kind and the text, so it does not
  tell the two keys apart.
- The generic `except Exception` path: only a line that is not an object is
  modelled as raising (`item.get` fails). Persistence failures are not
  modelled. Every failure leaves the state as at entry.
- SQLAlchemy session mechanics (flush, commit, identity map). Rollback is
  "state equals the state at entry", including the order-id counter, which a
  real database might not reuse.
- Float arithmetic: money is exact integer minor units.
- `created_at` timestamps and their ISO formatting in `get_orders`.
- The order of the listings: `get_orders` and `get_products` return maps keyed
  by id, because the source imposes no order.
- Concurrent checkouts: the model is sequential, so overselling between
  simultaneous requests is outside it. `Orders.BackToBackCheckouts` covers
  only the serialised case, where one checkout finishes before the next starts.
- Id generation and the default order status belong to `models.py`, which is
  not part of this model. Ids come from counters starting at 1, and new
  orders start unpaid.
- `get_all_users`, the only handler behind `admin_required`, is not modelled.
  Only the guard is.
- `backend/routes/auth.py` (password hashing, token issuance, registration),
  `backend/app.py` (application wiring; it never registers the orders
  blueprint) and the frontend scripts are not part of this model.
- Order items keep the product id of a product that may later be deleted. The
  model, like the source, does not prevent this.
