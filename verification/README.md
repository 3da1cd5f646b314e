# Marketplace cart and orders, modelled in Dafny

This project models the cart-to-order core of the marketplace backend. A
customer fills a cart with products. Checkout (`createOrder`) turns the cart
into a `pending` order, copies each line's current price into an order item,
takes the ordered quantities out of stock and empties the cart, all in one
transaction. Cancelling an order (`cancelOrder`) marks it `cancelled` and
puts the quantities back. A seller may move an order to any of the five
statuses (`updateOrderStatus`), read every order and count orders by status
(`getOrdersCount`). A customer reads only their own orders.

The store is one class, `Db.Database`. Each table the two controllers touch
is a field:

- `products` is a map to price and stock.
- `cart` is a map from user to cart id, with an auto-increment counter.
- `cart_items` is a sequence of lines, with an auto-increment counter.
- `orders` is a sequence; an order's id is its position.
- `order_items` is a sequence.

Each handler that writes is a method that changes the store in place; the
reads are functions of the store. Every refusal leaves the store unchanged. `Database.Valid()` is the invariant every
handler keeps:

- carts have distinct ids;
- every line sits in an existing cart and names an existing product;
- line ids are unique, and a cart holds at most one line per product;
- every order item belongs to an existing order;
- every order's `total_amount` equals the worth of its items.

The SQL queries are functions of module `Db`. The `JOIN` of a cart's lines
with their products is `JoinRows`. `DELETE ... WHERE cart_id` is
`LinesWithout`. `UPDATE products SET stock = stock ∓ q` is `Take`/`Put` in
module `Ledger`. The row-by-row stock changes of checkout and cancellation
are the folds `Reserve` and `Release`.

The main results are these:

- **Totals.** An order's total is the sum of price × quantity over its cart
  rows, and it equals the worth of the items written for it.
- **Checkout stock.** Checkout lowers each ordered product's stock by exactly
  that line's quantity and leaves every other product alone. Stock that was
  non-negative stays non-negative, because the stock check passed and a cart
  holds one line per product.
- **Cancel undoes checkout.** Cancelling an order right after checking it
  out restores every stock level exactly.
- **Cancelling twice.** A customer's second cancellation is refused. A
  seller's second cancellation is accepted and returns the stock a second
  time.
- **Counts.** The per-status counts of `getOrdersCount` add up to the number
  of orders.
- **Reads agree.** An order appears in `getOrders` exactly when
  `getOrderById` would return it.

Order status follows the code rather than a lifecycle. `updateOrderStatus`
accepts any of the five names in any order, including moving a `cancelled`
order back to `pending`. `cancelOrder` lets a seller cancel an order in any
status. Only a customer is limited to their own `pending` orders. The model
keeps these behaviours and proves their consequences. It adds no
forward-only order lifecycle; the code has none. The caller's
role is `Customer` or `Seller`; the handlers compare only against `seller`.

## Model

| member | source | states |
|---|---|---|
| Types.ParseStatus | controllers/orderController.js:196-200 | an accepted status string is the name of the status it is read as |
| Types.ParseStatusAccepts | controllers/orderController.js:197-198 | a status string is accepted exactly when it is one of the five names |
| Ledger.ItemsFromRows | controllers/orderController.js:153-157 | checkout writes one item per cart row, in row order, with the row's product, quantity and current price |
| Ledger.ReserveStock | controllers/orderController.js:159-163 | the checkout decrements lower each product's stock by the total quantity the rows ask of it; the product set is unchanged |
| Ledger.ReleaseStock | controllers/orderController.js:327-332 | the cancellation increments raise each product's stock by the total quantity the items hold of it; the product set is unchanged |
| Ledger.ItemsFromRowsQty | controllers/orderController.js:153-157 | the items written hold, per product, exactly the quantity the cart rows asked |
| Ledger.ItemsFromRowsTotal | controllers/orderController.js:139-157 | the items written are worth exactly the order total computed from the rows |
| Ledger.ReleaseUndoesReserve | controllers/orderController.js:159-163 | releasing the items a checkout wrote restores every product exactly as it was before the checkout's decrements |
| Ledger.RowsQtyAbsent | controllers/orderController.js:160-163 | a product no row names is asked for nothing |
| Ledger.RowsQtyUnique | controllers/orderController.js:160-163 | with one row per product, a product is asked for exactly its row's quantity |
| Ledger.ReserveNonNegative | controllers/orderController.js:129-136 | after the stock check passes, with one row per product, the decrements leave every stock non-negative |
| Ledger.ReserveEffect | controllers/orderController.js:159-163 | with one row per product, each ordered product loses exactly its row's quantity and every other product is untouched |
| Ledger.ReleaseNonNegative | controllers/orderController.js:327-332 | returning non-negative quantities keeps non-negative stock non-negative |
| Ledger.Take | controllers/orderController.js:160-163 | `stock = stock - q` on the named product only; a missing product changes nothing, and the product set is kept |
| Ledger.Put | controllers/orderController.js:328-331 | `stock = stock + q` on the named product only; a missing product changes nothing, and the product set is kept |
| Ledger.Reserve | controllers/orderController.js:153-164 | the decrements of a checkout keep the product set and every price; their per-product effect is `Ledger.ReserveStock` |
| Ledger.Release | controllers/orderController.js:327-332 | the increments of a cancellation keep the product set and every price; their per-product effect is `Ledger.ReleaseStock` |
| Ledger.NegativeItemBreaksStock | controllers/orderController.js:327-332 | for any product whose stock is zero, releasing an item of it with a negative quantity leaves that stock below zero |
| Db.JoinRows | controllers/orderController.js:116-121 | the joined rows come from the cart's own lines and carry their product's current price and stock; there are no rows exactly when none of the cart's lines names an existing product |
| Db.JoinRowsComplete | controllers/orderController.js:116-121 | every line of the cart whose product exists yields its row, with the product's current price and stock |
| Db.LinesWithout | controllers/orderController.js:167 | deleting a cart's lines keeps exactly the lines of the other carts |
| Db.FindLine | controllers/cartController.js:113-118 | finds a line of the cart for the product exactly when one exists |
| Db.LineIndex | controllers/cartController.js:154-164 | finds the position of the line with an id exactly when one exists |
| Db.ItemsOf | controllers/orderController.js:322-325 | an order's items are exactly the order-item rows with its id |
| Db.Database.CartRows | controllers/orderController.js:103-121 | a user without a cart has no rows; otherwise the rows are the join of the user's cart lines with their products |
| Db.Database.ExistingLine | controllers/cartController.js:113-118 | a line found for the user and product is in the user's cart and names that product, and nothing is found exactly when the user has no cart or no line for the product |
| Db.Database.LineById | controllers/cartController.js:154-162 | the line with an id is found exactly when it exists, and it carries that id |
| Db.NewCartKeepsCarts | controllers/cartController.js:100-107 | creating a cart for a user without one keeps every existing cart |
| Db.SetLineQuantity | controllers/cartController.js:128-131 | changing a line's quantity keeps ids unique and one line per product per cart, and the line stays the one found for its cart and product |
| Db.AppendLine | controllers/cartController.js:133-137 | inserting a line for a product the cart lacks keeps the table well-formed, and the new line is the one found for its cart and product |
| Db.RemoveLineAt | controllers/cartController.js:214 | deleting a line by id keeps every other line and nothing else |
| Db.LinesWithoutCompatible | controllers/cartController.js:240 | clearing a cart keeps the lines table well-formed |
| Db.LinesWithoutEmptiesCart | controllers/cartController.js:240 | after clearing, the cart joins to no rows |
| Db.LinesWithoutKeepsOthers | controllers/cartController.js:240 | clearing one cart leaves every other cart's contents as they were |
| Db.LinesWithoutIdempotent | controllers/cartController.js:240 | clearing a cart twice is the same as clearing it once |
| Db.JoinRowsDistinct | controllers/cartController.js:113-137 | since a cart holds at most one line per product, its joined rows name distinct products |
| Db.ItemsOfAppend | controllers/orderController.js:153-157 | appending item rows adds exactly the appended rows of each order |
| Db.ItemsOfOwn | controllers/orderController.js:153-157 | rows written for one order are exactly that order's items |
| Db.ItemsOfForeign | controllers/orderController.js:153-157 | rows of other orders add nothing to an order |
| CartController.ViewCart | controllers/cartController.js:38-55 | one view item per joined row in row order, with the line's id and quantity and the product's id, price and stock, and the total is the sum of price × quantity |
| CartController.CreateCart | controllers/cartController.js:14-19 | a user without a cart gets the next cart id, with no lines, and nothing else changes |
| CartController.GetCart | controllers/cartController.js:4-65 | returns the user's cart, created empty if missing, with its joined items and total; only the cart table can change |
| CartController.MergeLine | controllers/cartController.js:113-138 | adds to the cart's existing line for the product, refusing a merged quantity above the stock, or inserts a new line with the next id |
| CartController.AddToCart | controllers/cartController.js:68-144 | refuses a missing product, or stock below the requested or merged quantity, and succeeds exactly when neither applies; on success it creates the cart if needed, and the user's line for the product then holds the merged quantity, which does not exceed the stock |
| CartController.NegativeQuantityAccepted | controllers/cartController.js:86-137 | a request for a negative quantity of a product in stock, with no line for it yet, succeeds and is stored as a new line |
| CartController.UpdateCartItem | controllers/cartController.js:147-189 | refuses an unknown line, another user's line, or a quantity above the stock, and succeeds exactly when none applies; then only that line's quantity changes |
| CartController.RemoveFromCart | controllers/cartController.js:192-220 | refuses an unknown line or another user's line, and succeeds exactly otherwise; then the lines are the old ones with exactly that line cut out, in order |
| CartController.ClearCart | controllers/cartController.js:223-246 | refuses a user without a cart and succeeds exactly when the user has one; then the cart's lines are gone, the cart joins to no rows, and every other cart's lines stay |
| OrderController.CheckStock | controllers/orderController.js:129-136 | passes exactly when no row asks more than its stock; otherwise reports the first row that does |
| OrderController.ComputeTotal | controllers/orderController.js:139-142 | the running sum equals the sum of price × quantity over the rows |
| OrderController.AppendOrderKeepsTotals | controllers/orderController.js:145-157 | appending an order together with items worth its total keeps every order's total equal to its items' worth |
| OrderController.ReserveRows | controllers/orderController.js:153-164 | the per-row loop writes exactly the items for the rows and applies exactly the row-by-row decrements |
| OrderController.WriteOrder | controllers/orderController.js:145-164 | appends the `pending` order with the computed total, then its items and the stock decrements, and keeps the table invariant |
| OrderController.PlaceOrder | controllers/orderController.js:145-170 | the checkout writes followed by the cart delete: the order, its items, the decrements and an empty cart |
| OrderController.CheckoutStock | controllers/orderController.js:116-164 | checkout lowers each ordered product by its line's quantity, leaves products not in the cart untouched, and keeps checked stock non-negative |
| OrderController.CheckCart | controllers/orderController.js:103-136 | refuses EmptyCart exactly when the user has no cart rows, and InsufficientStock exactly when some row asks more than its stock |
| OrderController.CreateOrder | controllers/orderController.js:94-181 | all or nothing: on success the order is appended as `pending` with the rows' total, its items are the rows at current prices, stock is reserved, stock stays non-negative, and the cart is empty; each refusal leaves the store unchanged |
| OrderController.ReleaseItems | controllers/orderController.js:327-332 | the restocking loop applies exactly the item-by-item increments |
| OrderController.CancelOrder | controllers/orderController.js:288-343 | refuses an unknown order, a non-seller's foreign order, or a non-seller's non-pending order; otherwise marks it cancelled and adds each item's quantity back to its product |
| OrderController.UpdateOrderStatus | controllers/orderController.js:184-209 | refuses an unknown order or an unknown status name, and succeeds exactly when neither applies; then only that order's status changes, to the named one |
| OrderController.CustomerCancelsTwice | controllers/orderController.js:308-313 | after a customer's cancellation succeeds, the same customer's second attempt is refused and stock is returned once |
| OrderController.SellerCancelsTwice | controllers/orderController.js:303-332 | a seller's two cancellations of one order both succeed, and the items' quantities are returned twice |
| OrderController.CheckoutThenCancel | controllers/orderController.js:94-343 | a checkout followed by the customer's own cancellation succeeds and leaves every product exactly as before |
| OrderController.CanView | controllers/orderController.js:73 | a seller may see every order, a customer exactly their own |
| OrderController.GetOrderById | controllers/orderController.js:52-91 | NotFound exactly for a missing order, AccessDenied exactly for a non-seller's foreign order, success exactly for an existing order the caller may see, and then the order with exactly its items |
| OrderController.VisibleOrders | controllers/orderController.js:12-43 | lists exactly the orders the caller may see, each with its items, newest first |
| OrderController.GetOrders | controllers/orderController.js:4-49 | every listed order is one the caller may see, in strictly decreasing id order |
| OrderController.GetOrdersAgreesWithGetOrderById | controllers/orderController.js:4-91 | an order is listed exactly when it can be read by id, and it is listed as it is read |
| OrderController.Counts.Set | controllers/orderController.js:230 | setting one status's count changes that count only |
| OrderController.CountsFromRows | controllers/orderController.js:220-232 | `all` is the sum of the grouped counts, and each status holds the count of its row, or 0 without one |
| OrderController.GroupBy | controllers/orderController.js:214-218 | every grouped row names one of the given statuses and holds its non-zero count, and every given status that some order has gets a row |
| OrderController.GroupByStatus | controllers/orderController.js:214-218 | `GROUP BY status`: each row holds its status's non-zero count, and every status some order has gets a row |
| OrderController.CountStatusPartition | controllers/orderController.js:214-218 | the five status counts add up to the number of orders |
| OrderController.CountAmongAll | controllers/orderController.js:214-218 | counting over the five statuses counts every order once |
| OrderController.GroupBySum | controllers/orderController.js:214-218 | the grouped rows of some statuses hold, in all, the orders having one of those statuses |
| OrderController.GroupByLast | controllers/orderController.js:214-218 | in the grouped rows, a listed status's row holds its count and an unlisted status has no row |
| OrderController.GroupByStatusCounts | controllers/orderController.js:214-232 | the `GROUP BY status` rows count every order once, and each status's row holds that status's count |
| OrderController.GetOrdersCount | controllers/orderController.js:212-238 | `all` is the number of orders, and each status's count is the number of orders in that status |

## Left out

- HTTP details are not modelled: request parsing, response shapes, status codes and messages. Each refusal is an `Error` value instead.
- Authentication and routing are not modelled. This includes `routes/orderRoutes.js` and the seller middleware `middleware/seller.js`.
- UpdateOrderStatus: the seller-only gate sits in the route (`routes/orderRoutes.js:17`), so the handler is modelled without it.
- Concurrent requests are not modelled: each handler runs alone. Lost updates between the cart handlers' unguarded reads and writes are not captured. Neither is the race in checkout: the stock check (`controllers/orderController.js:116-136`) and the decrements (`controllers/orderController.js:159-163`) take no row lock, so two checkouts can both pass the check. "Stock stays non-negative" holds only with one handler running at a time.
- The `catch` paths are not modelled. These are the `500` answer and the `ROLLBACK` after a failed query; the queries here do not fail.
- `getSalesStats` (date grouping and floating-point revenue sums) is not part of this model.
- The admin, auth, product and category controllers are not part of this model. A product's name, image and category are not modelled.
- The cart that `authController.js` creates at registration is not part of this model. A user's cart is created on first use by the cart handlers.
- `ORDER BY created_at DESC` is modelled as decreasing order id. That is one admissible order; orders with equal `created_at` may come back in any order.
- Order reads join order items with `products` for the product name. Products are never deleted in this model, so that join drops no item.
- Order reads also join `orders` with `users` (`controllers/orderController.js:15-17`, `controllers/orderController.js:59-63`). The model has no users table and assumes that join drops no order; in the source an order whose user row is gone is left out of the list and reads as not found. No handler modelled here deletes users.
- The cart join (`controllers/cartController.js:31-36`) and the checkout join (`controllers/orderController.js:116-121`) have no `ORDER BY`, so the source fixes no order for a cart's items or for the order items written from them. `Db.JoinRows` keeps table order, which is one admissible order.
- Quantities, prices and stock are unbounded integers. The numeric coercion of JavaScript, string quantities and overflow are not modelled.
- The handlers never check that a quantity is positive, and the model keeps that. `addToCart` stores a negative quantity (`CartController.NegativeQuantityAccepted`), and releasing a negative item quantity can drive stock below zero (`Ledger.NegativeItemBreaksStock`). A full scenario in which such an order is cancelled after its stock sold out is not modelled.
- CancelOrder: stock stays non-negative only when the order's items have non-negative quantities. The source gives no stronger guarantee.
- CreateOrder: stock stays non-negative only given one line per product per cart. `Db.Database.Valid` keeps that invariant, but the database schema itself is not part of this model.
- `cart.user_id` is treated as unique: one cart per user. The handlers read only the first cart a user has.
