/**
 * Entities of the marketplace store that the cart and order controllers read
 * and write: products (only price and stock matter here), cart lines, orders,
 * order items, order statuses, caller roles and the error kinds the handlers
 * answer with.
 *
 * Money and quantities are integers: prices are counted in minor currency
 * units, and the handlers never check the sign of a requested quantity, so
 * none of these is restricted to `nat`.
 */
module Types {

  type ProductId = nat
  type UserId = nat
  type CartId = nat
  type LineId = nat
  type OrderId = nat

  datatype Option<T> = None | Some(value: T)

  /** The reasons a handler refuses a request; each leaves the store as it was. */
  datatype Error =
    | NotFound           // no such product, cart, cart line or order
    | AccessDenied       // the line or order belongs to another user
    | InsufficientStock  // a requested quantity exceeds the product's stock
    | EmptyCart          // checkout without a cart, or with a cart without lines
    | InvalidTransition  // a customer cancelling an order that is not pending
    | InvalidStatus      // a status outside the five known ones

  datatype Result<T> = Ok(value: T) | Err(error: Error)

  /** A row of the `products` table, reduced to the columns the core uses. */
  datatype Product = Product(price: int, stock: int)

  /** A row of the `cart_items` table. */
  datatype CartLine = CartLine(id: LineId, cartId: CartId, productId: ProductId, quantity: int)

  /** A cart line joined with its product's current price and stock. */
  datatype Row = Row(lineId: LineId, productId: ProductId, quantity: int, price: int, stock: int)

  datatype Status = Pending | Processing | Shipped | Delivered | Cancelled

  datatype Role = Customer | Seller

  /** A row of the `orders` table; its id is its position in the table. */
  datatype Order = Order(userId: UserId, totalAmount: int, status: Status,
                         shippingAddress: string, paymentMethod: string)

  /** A row of the `order_items` table: the price is copied at checkout. */
  datatype OrderItem = OrderItem(orderId: OrderId, productId: ProductId, quantity: int, price: int)

  /** The name under which a status is stored and requested. */
  function StatusName(st: Status): string
  {
    match st
    case Pending => "pending"
    case Processing => "processing"
    case Shipped => "shipped"
    case Delivered => "delivered"
    case Cancelled => "cancelled"
  }

  /** The whitelist of order status names. */
  function ParseStatus(s: string): (r: Option<Status>)
    ensures r.Some? ==> StatusName(r.value) == s
  {
    if s == "pending" then Some(Pending)
    else if s == "processing" then Some(Processing)
    else if s == "shipped" then Some(Shipped)
    else if s == "delivered" then Some(Delivered)
    else if s == "cancelled" then Some(Cancelled)
    else None
  }

  /** Every status name is accepted and read back as that status. */
  lemma ParseStatusName(st: Status)
    ensures ParseStatus(StatusName(st)) == Some(st)
  {
  }

  /** A string is accepted exactly when it is the name of a status. */
  lemma ParseStatusAccepts(s: string)
    ensures ParseStatus(s).Some? <==> exists st :: StatusName(st) == s
  {
    if st :| StatusName(st) == s {
      ParseStatusName(st);
    }
  }
}
