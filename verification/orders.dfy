/**
 * The order handlers: checkout (`createOrder`), cancellation, status updates,
 * the read access rule of `getOrders`/`getOrderById`, and the per-status
 * counts of `getOrdersCount`. Checkout and cancellation each run as one
 * transaction; every refusal rolls back to the store as it was.
 */
module OrderController {
  import opened Types
  import opened Ledger
  import opened Db

  /** An order as the read handlers return it: with its id and its items. */
  datatype OrderView = OrderView(id: OrderId, order: Order, items: seq<OrderItem>)

  /** The access rule of `getOrders` and `getOrderById`: sellers see every order, others their own. */
  function CanView(userId: UserId, role: Role, order: Order): (ok: bool)
    ensures role == Seller ==> ok
    ensures role == Customer ==> (ok <==> order.userId == userId)
  {
    role == Seller || order.userId == userId
  }

  // ---------------------------------------------------------------- checkout

  /** No row asks more than the stock read with it. */
  predicate StockCovers(rows: seq<Row>)
  {
    forall i :: 0 <= i < |rows| ==> rows[i].quantity <= rows[i].stock
  }

  /**
   * The stock check of `createOrder`: stops at the first row asking more than
   * its stock and reports it (the handler names that row's product).
   */
  method CheckStock(rows: seq<Row>) returns (short: Option<nat>)
    ensures short.None? <==> StockCovers(rows)
    ensures short.Some? ==>
      short.value < |rows| && rows[short.value].quantity > rows[short.value].stock
      && StockCovers(rows[..short.value])
  {
    for i := 0 to |rows|
      invariant StockCovers(rows[..i])
    {
      if rows[i].quantity > rows[i].stock {
        return Some(i);
      }
      assert rows[..i + 1] == rows[..i] + [rows[i]];
    }
    assert rows[..|rows|] == rows;
    return None;
  }

  /** The total of `createOrder`: the running sum of price × quantity over the rows. */
  method ComputeTotal(rows: seq<Row>) returns (total: int)
    ensures total == RowsTotal(rows)
  {
    total := 0;
    for i := 0 to |rows|
      invariant total == RowsTotal(rows[..i])
    {
      assert rows[..i + 1][..i] == rows[..i];
      total := total + rows[i].price * rows[i].quantity;
    }
    assert rows[..|rows|] == rows;
  }

  /** Appending an order together with items worth its total keeps every order's total equal to its items. */
  lemma AppendOrderKeepsTotals(orders: seq<Order>, items: seq<OrderItem>, order: Order, newItems: seq<OrderItem>)
    requires forall it :: it in items ==> it.orderId < |orders|
    requires forall k :: 0 <= k < |orders| ==> orders[k].totalAmount == ItemsTotal(ItemsOf(items, k))
    requires forall i :: 0 <= i < |newItems| ==> newItems[i].orderId == |orders|
    requires order.totalAmount == ItemsTotal(newItems)
    ensures forall it :: it in items + newItems ==> it.orderId < |orders| + 1
    ensures forall k :: 0 <= k < |orders| + 1 ==>
      (orders + [order])[k].totalAmount == ItemsTotal(ItemsOf(items + newItems, k))
    ensures ItemsOf(items + newItems, |orders|) == newItems
  {
    forall k | 0 <= k <= |orders|
      ensures ItemsOf(items + newItems, k) == if k < |orders| then ItemsOf(items, k) else newItems
    {
      ItemsOfAppend(items, newItems, k);
      if k < |orders| {
        assert forall it :: it in newItems ==> it.orderId != k;
        ItemsOfForeign(newItems, k);
      } else {
        ItemsOfForeign(items, k);
        ItemsOfOwn(newItems, k);
      }
    }
  }

  /**
   * The per-row writes of `createOrder`: for each row, in order, an order item
   * at the row's price and the decrement of its product's stock.
   */
  method ReserveRows(products: map<ProductId, Product>, rows: seq<Row>, orderId: OrderId)
    returns (reserved: map<ProductId, Product>, items: seq<OrderItem>)
    ensures items == ItemsFromRows(rows, orderId)
    ensures reserved == Reserve(products, rows)
  {
    reserved, items := products, [];
    var i := 0;
    while i < |rows|
      invariant 0 <= i <= |rows|
      invariant items == ItemsFromRows(rows[..i], orderId)
      invariant reserved == Reserve(products, rows[..i])
    {
      var row := rows[i];
      assert rows[..i + 1][..i] == rows[..i] && rows[..i + 1][i] == row;
      items := items + [OrderItem(orderId, row.productId, row.quantity, row.price)];
      if row.productId in reserved {
        reserved := reserved[row.productId := reserved[row.productId].(stock := reserved[row.productId].stock - row.quantity)];
      }
      i := i + 1;
    }
    assert rows[..i] == rows;
  }

  /** The writes of `createOrder`: the `pending` order, its items and the stock decrements. */
  method WriteOrder(db: Database, userId: UserId, rows: seq<Row>, total: int,
                    shippingAddress: string, paymentMethod: string) returns (orderId: OrderId)
    requires db.Valid()
    requires total == RowsTotal(rows)
    requires forall i :: 0 <= i < |rows| ==> rows[i].productId in db.products
    modifies db
    ensures db.Valid()
    ensures orderId == |old(db.orders)|
    ensures db.orders == old(db.orders) + [Order(userId, total, Pending, shippingAddress, paymentMethod)]
    ensures db.orderItems == old(db.orderItems) + ItemsFromRows(rows, orderId)
    ensures ItemsOf(db.orderItems, orderId) == ItemsFromRows(rows, orderId)
    ensures db.products == Reserve(old(db.products), rows)
    ensures db.carts == old(db.carts) && db.nextCartId == old(db.nextCartId)
    ensures db.lines == old(db.lines) && db.nextLineId == old(db.nextLineId)
  {
    orderId := |db.orders|;
    var order := Order(userId, total, Pending, shippingAddress, paymentMethod);
    var reserved, items := ReserveRows(db.products, rows, orderId);
    ItemsFromRowsTotal(rows, orderId);
    AppendOrderKeepsTotals(db.orders, db.orderItems, order, items);
    ReserveStock(db.products, rows);
    db.orders := db.orders + [order];
    db.orderItems := db.orderItems + items;
    db.products := reserved;
  }

  /** The writes of a checkout that passed its checks: the order, its items, the stock, and the emptied cart. */
  method PlaceOrder(db: Database, userId: UserId, rows: seq<Row>, total: int,
                    shippingAddress: string, paymentMethod: string) returns (orderId: OrderId)
    requires db.Valid()
    requires userId in db.carts && rows == db.CartRows(userId)
    requires total == RowsTotal(rows)
    modifies db
    ensures db.Valid()
    ensures orderId == |old(db.orders)|
    ensures db.orders == old(db.orders) + [Order(userId, total, Pending, shippingAddress, paymentMethod)]
    ensures db.orderItems == old(db.orderItems) + ItemsFromRows(rows, orderId)
    ensures ItemsOf(db.orderItems, orderId) == ItemsFromRows(rows, orderId)
    ensures db.products == Reserve(old(db.products), rows)
    ensures db.carts == old(db.carts) && db.nextCartId == old(db.nextCartId) && db.nextLineId == old(db.nextLineId)
    ensures db.lines == LinesWithout(old(db.lines), db.carts[userId]) && db.CartRows(userId) == []
  {
    var cartId := db.carts[userId];
    orderId := WriteOrder(db, userId, rows, total, shippingAddress, paymentMethod);
    LinesWithoutCompatible(db.lines, cartId);
    LinesWithoutEmptiesCart(db.lines, db.products, cartId);
    db.lines := LinesWithout(db.lines, cartId);
  }

  /**
   * What a checkout does to stock: with at most one line per product in a cart,
   * each ordered product loses exactly its line's quantity, every other product
   * keeps its stock, and stock that passed the check stays non-negative.
   */
  lemma CheckoutStock(lines: seq<CartLine>, products: map<ProductId, Product>, cartId: CartId)
    requires PairwiseCompatible(lines)
    ensures Reserve(products, JoinRows(lines, products, cartId)).Keys == products.Keys
    ensures forall i :: 0 <= i < |JoinRows(lines, products, cartId)| ==>
      var row := JoinRows(lines, products, cartId)[i];
      Reserve(products, JoinRows(lines, products, cartId))[row.productId].stock == products[row.productId].stock - row.quantity
    ensures forall p :: p in products && (forall i :: 0 <= i < |lines| && lines[i].cartId == cartId ==> lines[i].productId != p) ==>
      Reserve(products, JoinRows(lines, products, cartId))[p] == products[p]
    ensures StockNonNegative(products) && StockCovers(JoinRows(lines, products, cartId))
      ==> StockNonNegative(Reserve(products, JoinRows(lines, products, cartId)))
  {
    var rows := JoinRows(lines, products, cartId);
    JoinRowsDistinct(lines, products, cartId);
    ReserveEffect(products, rows);
    if StockNonNegative(products) && StockCovers(rows) {
      ReserveNonNegative(products, rows);
    }
  }

  /**
   * The refusals of `createOrder`, read before anything is written: no cart or
   * an empty one, then any line asking more than its product's stock.
   */
  method CheckCart(db: Database, userId: UserId) returns (r: Result<seq<Row>>)
    ensures r == Err(EmptyCart) <==> db.CartRows(userId) == []
    ensures r == Err(InsufficientStock) <==> db.CartRows(userId) != [] && !StockCovers(db.CartRows(userId))
    ensures r.Ok? <==> db.CartRows(userId) != [] && StockCovers(db.CartRows(userId))
    ensures r.Ok? ==> userId in db.carts && r.value == db.CartRows(userId)
  {
    if userId !in db.carts {
      return Err(EmptyCart);
    }
    var rows := JoinRows(db.lines, db.products, db.carts[userId]);
    if |rows| == 0 {
      return Err(EmptyCart);
    }
    var short := CheckStock(rows);
    if short.Some? {
      return Err(InsufficientStock);
    }
    r := Ok(rows);
  }

  /**
   * `createOrder`: turns the user's cart into a `pending` order with one item
   * per cart line at the price read now, takes the ordered quantities out of
   * stock, and empties the cart, all or nothing.
   */
  method CreateOrder(db: Database, userId: UserId, shippingAddress: string, paymentMethod: string)
    returns (r: Result<OrderId>)
    requires db.Valid()
    modifies db
    ensures db.Valid()
    ensures r == Err(EmptyCart) <==> old(db.CartRows(userId)) == []
    ensures r == Err(InsufficientStock) <==> old(db.CartRows(userId)) != [] && !StockCovers(old(db.CartRows(userId)))
    ensures r.Ok? <==> old(db.CartRows(userId)) != [] && StockCovers(old(db.CartRows(userId)))
    ensures r.Err? ==> unchanged(db)
    ensures r.Ok? ==> r.value == |old(db.orders)|
    ensures r.Ok? ==>
      db.orders == old(db.orders) + [Order(userId, RowsTotal(old(db.CartRows(userId))), Pending, shippingAddress, paymentMethod)]
    ensures r.Ok? ==> db.orderItems == old(db.orderItems) + ItemsFromRows(old(db.CartRows(userId)), r.value)
    ensures r.Ok? ==> ItemsOf(db.orderItems, r.value) == ItemsFromRows(old(db.CartRows(userId)), r.value)
    ensures r.Ok? ==> db.orders[r.value].totalAmount == ItemsTotal(ItemsOf(db.orderItems, r.value))
    ensures r.Ok? ==> db.products == Reserve(old(db.products), old(db.CartRows(userId)))
    ensures r.Ok? && old(StockNonNegative(db.products)) ==> StockNonNegative(db.products)
    ensures r.Ok? ==> db.carts == old(db.carts) && db.nextCartId == old(db.nextCartId) && db.nextLineId == old(db.nextLineId)
    ensures r.Ok? ==> db.lines == LinesWithout(old(db.lines), db.carts[userId]) && db.CartRows(userId) == []
  {
    ghost var before := db.CartRows(userId);
    var checked := CheckCart(db, userId);
    if checked.Err? {
      return Err(checked.error);
    }
    var rows := checked.value;
    assert rows == before && rows != [];
    var total := ComputeTotal(rows);
    CheckoutStock(db.lines, db.products, db.carts[userId]);
    var orderId := PlaceOrder(db, userId, rows, total, shippingAddress, paymentMethod);
    r := Ok(orderId);
  }

  // ------------------------------------------------------------ cancellation

  /** The restocking loop of `cancelOrder`: each item's quantity goes back to its product, in item order. */
  method ReleaseItems(products: map<ProductId, Product>, items: seq<OrderItem>) returns (released: map<ProductId, Product>)
    ensures released == Release(products, items)
  {
    released := products;
    var i := 0;
    while i < |items|
      invariant 0 <= i <= |items|
      invariant released == Release(products, items[..i])
    {
      var item := items[i];
      assert items[..i + 1][..i] == items[..i] && items[..i + 1][i] == item;
      if item.productId in released {
        released := released[item.productId := released[item.productId].(stock := released[item.productId].stock + item.quantity)];
      }
      i := i + 1;
    }
    assert items[..i] == items;
  }

  /**
   * `cancelOrder`: a seller may cancel any order, anyone else only their own
   * pending order; the order becomes `cancelled` and each of its items'
   * quantity goes back to its product's stock.
   */
  method CancelOrder(db: Database, userId: UserId, role: Role, orderId: OrderId) returns (r: Result<()>)
    requires db.Valid()
    modifies db
    ensures db.Valid()
    ensures r == Err(NotFound) <==> orderId >= |old(db.orders)|
    ensures r == Err(AccessDenied) <==>
      orderId < |old(db.orders)| && role != Seller && old(db.orders[orderId].userId) != userId
    ensures r == Err(InvalidTransition) <==>
      orderId < |old(db.orders)| && role != Seller && old(db.orders[orderId].userId) == userId
      && old(db.orders[orderId].status) != Pending
    ensures r.Ok? <==>
      orderId < |old(db.orders)| && (role == Seller || (old(db.orders[orderId].userId) == userId && old(db.orders[orderId].status) == Pending))
    ensures r.Err? ==> unchanged(db)
    ensures r.Ok? ==> db.orders == old(db.orders)[orderId := old(db.orders[orderId]).(status := Cancelled)]
    ensures r.Ok? ==> db.products == Release(old(db.products), ItemsOf(old(db.orderItems), orderId))
    ensures r.Ok? ==> db.products.Keys == old(db.products).Keys
    ensures r.Ok? ==> forall p :: p in old(db.products) ==>
      db.products[p] == old(db.products[p]).(stock := old(db.products[p].stock) + ItemsQty(ItemsOf(old(db.orderItems), orderId), p))
    ensures r.Ok? ==> db.orderItems == old(db.orderItems) && db.carts == old(db.carts) && db.lines == old(db.lines)
    ensures r.Ok? ==> db.nextCartId == old(db.nextCartId) && db.nextLineId == old(db.nextLineId)
    ensures r.Ok? && old(StockNonNegative(db.products))
      && (forall it :: it in ItemsOf(old(db.orderItems), orderId) ==> it.quantity >= 0)
      ==> StockNonNegative(db.products)
  {
    if orderId >= |db.orders| {
      return Err(NotFound);
    }
    var order := db.orders[orderId];
    if role != Seller && order.userId != userId {
      return Err(AccessDenied);
    }
    if role != Seller && order.status != Pending {
      return Err(InvalidTransition);
    }

    db.orders := db.orders[orderId := order.(status := Cancelled)];
    var items := ItemsOf(db.orderItems, orderId);
    db.products := ReleaseItems(db.products, items);
    r := Ok(());

    ReleaseStock(old(db.products), items);
    if old(StockNonNegative(db.products)) && forall it :: it in items ==> it.quantity >= 0 {
      assert forall k :: 0 <= k < |items| ==> items[k] in items;
      ReleaseNonNegative(old(db.products), items);
    }
  }

  // ---------------------------------------------------------- status update

  /** `updateOrderStatus`: sets any of the five known statuses on an existing order. */
  method UpdateOrderStatus(db: Database, orderId: OrderId, status: string) returns (r: Result<()>)
    requires db.Valid()
    modifies db
    ensures db.Valid()
    ensures r == Err(NotFound) <==> orderId >= |old(db.orders)|
    ensures r == Err(InvalidStatus) <==> orderId < |old(db.orders)| && ParseStatus(status).None?
    ensures r.Ok? <==> orderId < |old(db.orders)| && ParseStatus(status).Some?
    ensures r.Err? ==> unchanged(db)
    ensures r.Ok? ==> |db.orders| == |old(db.orders)| && StatusName(db.orders[orderId].status) == status
    ensures r.Ok? ==> db.orders == old(db.orders)[orderId := old(db.orders[orderId]).(status := db.orders[orderId].status)]
    ensures db.products == old(db.products) && db.orderItems == old(db.orderItems)
    ensures db.carts == old(db.carts) && db.lines == old(db.lines)
    ensures db.nextCartId == old(db.nextCartId) && db.nextLineId == old(db.nextLineId)
  {
    if orderId >= |db.orders| {
      return Err(NotFound);
    }
    var parsed := ParseStatus(status);
    if parsed.None? {
      return Err(InvalidStatus);
    }
    db.orders := db.orders[orderId := db.orders[orderId].(status := parsed.value)];
    r := Ok(());
  }

  // --------------------------------------------------------- whole scenarios

  /** A customer's second cancellation of an order is refused, so its stock comes back once. */
  method CustomerCancelsTwice(db: Database, userId: UserId, orderId: OrderId) returns (first: Result<()>, second: Result<()>)
    requires db.Valid()
    modifies db
    ensures db.Valid()
    ensures first.Ok? ==> second == Err(InvalidTransition)
    ensures first.Ok? ==> db.products == Release(old(db.products), ItemsOf(old(db.orderItems), orderId))
  {
    first := CancelOrder(db, userId, Customer, orderId);
    second := CancelOrder(db, userId, Customer, orderId);
  }

  /** A seller's second cancellation of an order is accepted and gives its stock back a second time. */
  method SellerCancelsTwice(db: Database, userId: UserId, orderId: OrderId) returns (first: Result<()>, second: Result<()>)
    requires db.Valid()
    requires orderId < |db.orders|
    modifies db
    ensures db.Valid()
    ensures first.Ok? && second.Ok?
    ensures db.products == Release(Release(old(db.products), ItemsOf(old(db.orderItems), orderId)),
                                   ItemsOf(old(db.orderItems), orderId))
  {
    first := CancelOrder(db, userId, Seller, orderId);
    second := CancelOrder(db, userId, Seller, orderId);
  }

  /**
   * A checkout cancelled by the same customer right after leaves every stock as
   * it was before. When the checkout is refused no cancellation is attempted,
   * and `cancelled` is then only a placeholder `Err(NotFound)`.
   */
  method CheckoutThenCancel(db: Database, userId: UserId, shippingAddress: string, paymentMethod: string)
    returns (placed: Result<OrderId>, cancelled: Result<()>)
    requires db.Valid()
    modifies db
    ensures db.Valid()
    ensures placed.Ok? ==> cancelled.Ok? && db.products == old(db.products)
    ensures placed.Ok? ==> placed.value < |db.orders| && db.orders[placed.value].status == Cancelled
  {
    placed := CreateOrder(db, userId, shippingAddress, paymentMethod);
    if placed.Err? {
      return placed, Err(NotFound);
    }
    cancelled := CancelOrder(db, userId, Customer, placed.value);
    ReleaseUndoesReserve(old(db.products), old(db.CartRows(userId)), placed.value);
  }

  // -------------------------------------------------------------- reading

  /** `getOrderById`: the order with its items, if it exists and the caller may see it. */
  function GetOrderById(db: Database, userId: UserId, role: Role, orderId: OrderId): (r: Result<OrderView>)
    reads db
    ensures r == Err(NotFound) <==> orderId >= |db.orders|
    ensures r == Err(AccessDenied) <==>
      orderId < |db.orders| && role != Seller && db.orders[orderId].userId != userId
    ensures r.Ok? <==> orderId < |db.orders| && CanView(userId, role, db.orders[orderId])
    ensures r.Ok? ==>
      r.value.id == orderId && r.value.order == db.orders[orderId] && r.value.items == ItemsOf(db.orderItems, orderId)
  {
    if orderId >= |db.orders| then Err(NotFound)
    else if !CanView(userId, role, db.orders[orderId]) then Err(AccessDenied)
    else Ok(OrderView(orderId, db.orders[orderId], ItemsOf(db.orderItems, orderId)))
  }

  /** The orders among the first n that the caller may see, newest first, with their items. */
  function VisibleOrders(orders: seq<Order>, items: seq<OrderItem>, userId: UserId, role: Role, n: nat): (r: seq<OrderView>)
    requires n <= |orders|
    ensures forall a :: 0 <= a < |r| ==> r[a].id < n
    ensures forall v :: v in r ==>
      v.id < |orders| && CanView(userId, role, orders[v.id]) && v.order == orders[v.id] && v.items == ItemsOf(items, v.id)
    ensures forall k :: 0 <= k < n && CanView(userId, role, orders[k]) ==> exists v :: v in r && v.id == k
    ensures forall a, b :: 0 <= a < b < |r| ==> r[a].id > r[b].id
  {
    if n == 0 then []
    else
      var k := n - 1;
      (if CanView(userId, role, orders[k]) then [OrderView(k, orders[k], ItemsOf(items, k))] else [])
      + VisibleOrders(orders, items, userId, role, k)
  }

  /** `getOrders`: every order for a seller, the caller's own otherwise, newest first. */
  function GetOrders(db: Database, userId: UserId, role: Role): (r: seq<OrderView>)
    reads db
    ensures forall v :: v in r ==> v.id < |db.orders| && CanView(userId, role, db.orders[v.id])
    ensures forall a, b :: 0 <= a < b < |r| ==> r[a].id > r[b].id
  {
    VisibleOrders(db.orders, db.orderItems, userId, role, |db.orders|)
  }

  /** The list and the single-order read agree: an order is listed exactly when it can be read, and as read. */
  lemma GetOrdersAgreesWithGetOrderById(db: Database, userId: UserId, role: Role, orderId: OrderId)
    ensures (exists v :: v in GetOrders(db, userId, role) && v.id == orderId) <==> GetOrderById(db, userId, role, orderId).Ok?
    ensures forall v :: v in GetOrders(db, userId, role) && v.id == orderId ==> GetOrderById(db, userId, role, orderId) == Ok(v)
  {
  }

  // ---------------------------------------------------------------- counts

  /** A row of `SELECT status, COUNT(*) FROM orders GROUP BY status`. */
  datatype StatusRow = StatusRow(status: Status, count: nat)

  /** The `counts` object of `getOrdersCount`. */
  datatype Counts = Counts(all: nat, pending: nat, processing: nat, shipped: nat, delivered: nat, cancelled: nat)
  {
    function Get(st: Status): nat
    {
      match st
      case Pending => pending
      case Processing => processing
      case Shipped => shipped
      case Delivered => delivered
      case Cancelled => cancelled
    }

    /** `counts[status] = n` */
    function Set(st: Status, n: nat): (c: Counts)
      ensures c.Get(st) == n && c.all == all
      ensures forall s :: s != st ==> c.Get(s) == Get(s)
    {
      match st
      case Pending => this.(pending := n)
      case Processing => this.(processing := n)
      case Shipped => this.(shipped := n)
      case Delivered => this.(delivered := n)
      case Cancelled => this.(cancelled := n)
    }
  }

  /** The number of orders with a status. */
  function CountStatus(orders: seq<Order>, st: Status): nat
  {
    if orders == [] then 0
    else CountStatus(orders[..|orders| - 1], st) + (if orders[|orders| - 1].status == st then 1 else 0)
  }

  /** The group of one status: a row when some order has it, none otherwise. */
  function Group(orders: seq<Order>, st: Status): seq<StatusRow>
  {
    if CountStatus(orders, st) > 0 then [StatusRow(st, CountStatus(orders, st))] else []
  }

  /** The groups of the given statuses, in that order. */
  function GroupBy(orders: seq<Order>, statuses: seq<Status>): (rows: seq<StatusRow>)
    ensures forall k :: 0 <= k < |rows| ==>
      rows[k].status in statuses && rows[k].count > 0 && rows[k].count == CountStatus(orders, rows[k].status)
    ensures forall st :: st in statuses && CountStatus(orders, st) > 0 ==>
      exists k :: 0 <= k < |rows| && rows[k].status == st
  {
    if statuses == [] then []
    else
      var front, last := statuses[..|statuses| - 1], statuses[|statuses| - 1];
      var g, h := GroupBy(orders, front), Group(orders, last);
      assert forall st :: st in statuses ==> st in front || st == last;
      assert forall k :: 0 <= k < |g| ==> (g + h)[k] == g[k];
      assert h != [] ==> (g + h)[|g|] == h[0];
      g + h
  }

  const AllStatuses: seq<Status> := [Pending, Processing, Shipped, Delivered, Cancelled]

  /** `GROUP BY status`: one row per status present. */
  function GroupByStatus(orders: seq<Order>): (rows: seq<StatusRow>)
    ensures forall k :: 0 <= k < |rows| ==> rows[k].count > 0 && rows[k].count == CountStatus(orders, rows[k].status)
    ensures forall st :: CountStatus(orders, st) > 0 ==> exists k :: 0 <= k < |rows| && rows[k].status == st
  {
    GroupBy(orders, AllStatuses)
  }

  /** The number of orders whose status is among the given ones (each counted once per mention). */
  function CountAmong(orders: seq<Order>, statuses: seq<Status>): nat
  {
    if statuses == [] then 0
    else CountAmong(orders, statuses[..|statuses| - 1]) + CountStatus(orders, statuses[|statuses| - 1])
  }

  /** The sum of the rows' counts. */
  function SumCounts(rows: seq<StatusRow>): nat
  {
    if rows == [] then 0 else SumCounts(rows[..|rows| - 1]) + rows[|rows| - 1].count
  }

  /** The count of the last row with a status, 0 when no row has it. */
  function LastCount(rows: seq<StatusRow>, st: Status): nat
  {
    if rows == [] then 0
    else if rows[|rows| - 1].status == st then rows[|rows| - 1].count
    else LastCount(rows[..|rows| - 1], st)
  }

  /** The `forEach` of `getOrdersCount`: each row sets its status's count and adds to `all`. */
  method CountsFromRows(rows: seq<StatusRow>) returns (c: Counts)
    ensures c.all == SumCounts(rows)
    ensures forall st :: c.Get(st) == LastCount(rows, st)
  {
    c := Counts(0, 0, 0, 0, 0, 0);
    for i := 0 to |rows|
      invariant c.all == SumCounts(rows[..i])
      invariant forall st :: c.Get(st) == LastCount(rows[..i], st)
    {
      assert rows[..i + 1][..i] == rows[..i];
      var row := rows[i];
      c := c.Set(row.status, row.count);
      c := c.(all := c.all + row.count);
    }
    assert rows[..|rows|] == rows;
  }

  /** Every order has exactly one of the five statuses. */
  lemma {:induction false} CountStatusPartition(orders: seq<Order>)
    ensures CountStatus(orders, Pending) + CountStatus(orders, Processing) + CountStatus(orders, Shipped)
          + CountStatus(orders, Delivered) + CountStatus(orders, Cancelled) == |orders|
  {
    if orders != [] {
      CountStatusPartition(orders[..|orders| - 1]);
    }
  }

  /** Counted over the five statuses, every order is counted exactly once. */
  lemma CountAmongAll(orders: seq<Order>)
    ensures CountAmong(orders, AllStatuses) == |orders|
  {
    var a := AllStatuses;
    assert a[..4][..3] == a[..3] && a[..3][..2] == a[..2] && a[..2][..1] == a[..1] && a[..1][..0] == [];
    assert CountAmong(orders, a[..1]) == CountStatus(orders, Pending);
    assert CountAmong(orders, a[..2]) == CountAmong(orders, a[..1]) + CountStatus(orders, Processing);
    assert CountAmong(orders, a[..3]) == CountAmong(orders, a[..2]) + CountStatus(orders, Shipped);
    assert CountAmong(orders, a[..4]) == CountAmong(orders, a[..3]) + CountStatus(orders, Delivered);
    assert CountAmong(orders, a) == CountAmong(orders, a[..4]) + CountStatus(orders, Cancelled);
    CountStatusPartition(orders);
  }

  /** The groups of some statuses hold, in all, the orders having one of them. */
  lemma {:induction false} GroupBySum(orders: seq<Order>, statuses: seq<Status>)
    ensures SumCounts(GroupBy(orders, statuses)) == CountAmong(orders, statuses)
  {
    if statuses != [] {
      var front := statuses[..|statuses| - 1];
      var g := GroupBy(orders, front);
      var h := Group(orders, statuses[|statuses| - 1]);
      GroupBySum(orders, front);
      if h != [] {
        assert (g + h)[..|g + h| - 1] == g;
      } else {
        assert g + h == g;
      }
    }
  }

  /** In the groups of some statuses, a listed status's last row holds its count; an unlisted one has none. */
  lemma {:induction false} GroupByLast(orders: seq<Order>, statuses: seq<Status>, st: Status)
    ensures LastCount(GroupBy(orders, statuses), st) == if st in statuses then CountStatus(orders, st) else 0
  {
    if statuses != [] {
      var front := statuses[..|statuses| - 1];
      var last := statuses[|statuses| - 1];
      var g := GroupBy(orders, front);
      var h := Group(orders, last);
      GroupByLast(orders, front, st);
      assert st in statuses <==> st in front || st == last;
      if h != [] {
        assert (g + h)[..|g + h| - 1] == g;
      } else {
        assert g + h == g;
      }
    }
  }

  /** The grouped rows count every order once, and each status's row holds that status's count. */
  lemma GroupByStatusCounts(orders: seq<Order>)
    ensures SumCounts(GroupByStatus(orders)) == |orders|
    ensures forall st :: LastCount(GroupByStatus(orders), st) == CountStatus(orders, st)
  {
    GroupBySum(orders, AllStatuses);
    CountAmongAll(orders);
    forall st ensures LastCount(GroupByStatus(orders), st) == CountStatus(orders, st) {
      GroupByLast(orders, AllStatuses, st);
    }
  }

  /** `getOrdersCount`: the number of orders in each status, and in all. */
  method GetOrdersCount(db: Database) returns (c: Counts)
    ensures c.all == |db.orders|
    ensures forall st :: c.Get(st) == CountStatus(db.orders, st)
  {
    var rows := GroupByStatus(db.orders);
    c := CountsFromRows(rows);
    GroupByStatusCounts(db.orders);
  }
}
