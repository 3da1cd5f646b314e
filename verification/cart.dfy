/**
 * The cart handlers: reading a user's cart (created on first use), adding a
 * product, setting a line's quantity, removing a line and clearing the cart.
 * Every refusal leaves the store exactly as it was. The stock comparisons
 * here are advisory: nothing is reserved until checkout.
 */
module CartController {
  import opened Types
  import opened Ledger
  import opened Db

  /** The product part of a cart item as `getCart` returns it. */
  datatype ProductView = ProductView(id: ProductId, price: int, stock: int)

  /** A cart item as `getCart` returns it: the line's id and quantity with its product. */
  datatype CartItemView = CartItemView(id: LineId, quantity: int, product: ProductView)

  function ItemView(row: Row): CartItemView
  {
    CartItemView(row.lineId, row.quantity, ProductView(row.productId, row.price, row.stock))
  }

  /**
   * The loop of `getCart` over the joined rows: one item per row, in order,
   * and the running sum of price × quantity.
   */
  method ViewCart(rows: seq<Row>) returns (items: seq<CartItemView>, total: int)
    ensures |items| == |rows|
    ensures forall i :: 0 <= i < |rows| ==> items[i] == ItemView(rows[i])
    ensures total == RowsTotal(rows)
  {
    items, total := [], 0;
    var i := 0;
    while i < |rows|
      invariant 0 <= i <= |rows|
      invariant |items| == i
      invariant forall k :: 0 <= k < i ==> items[k] == ItemView(rows[k])
      invariant total == RowsTotal(rows[..i])
    {
      var row := rows[i];
      assert rows[..i + 1][..i] == rows[..i];
      total := total + row.price * row.quantity;
      items := items + [ItemView(row)];
      i := i + 1;
    }
    assert rows[..i] == rows;
  }

  /** `INSERT INTO cart (user_id) VALUES (?)`: a new, empty cart for a user who has none. */
  method CreateCart(db: Database, userId: UserId) returns (cartId: CartId)
    requires db.Valid()
    requires userId !in db.carts
    modifies db
    ensures db.Valid()
    ensures cartId == old(db.nextCartId) && db.nextCartId == old(db.nextCartId) + 1
    ensures db.carts == old(db.carts)[userId := cartId]
    ensures db.products == old(db.products) && db.lines == old(db.lines) && db.nextLineId == old(db.nextLineId)
    ensures db.orders == old(db.orders) && db.orderItems == old(db.orderItems)
    ensures forall i :: 0 <= i < |db.lines| ==> db.lines[i].cartId != cartId
  {
    cartId := db.nextCartId;
    NewCartKeepsCarts(db.carts, userId, cartId);
    db.carts := db.carts[userId := cartId];
    db.nextCartId := db.nextCartId + 1;
    forall i | 0 <= i < |db.lines| ensures db.lines[i].cartId != cartId {
      assert db.lines[i] in db.lines;
    }
  }

  /**
   * `getCart`: the user's cart, created empty when the user has none, with its
   * items and their total at current prices.
   */
  method GetCart(db: Database, userId: UserId) returns (cartId: CartId, items: seq<CartItemView>, total: int)
    requires db.Valid()
    modifies db
    ensures db.Valid()
    ensures db.carts == old(db.carts)[userId := cartId]
    ensures userId in old(db.carts) ==> cartId == old(db.carts[userId]) && db.nextCartId == old(db.nextCartId)
    ensures userId !in old(db.carts) ==>
      cartId == old(db.nextCartId) && db.nextCartId == old(db.nextCartId) + 1 && items == [] && total == 0
    ensures db.products == old(db.products) && db.lines == old(db.lines) && db.nextLineId == old(db.nextLineId)
    ensures db.orders == old(db.orders) && db.orderItems == old(db.orderItems)
    ensures |items| == |db.CartRows(userId)|
    ensures forall i :: 0 <= i < |items| ==> items[i] == ItemView(db.CartRows(userId)[i])
    ensures total == RowsTotal(db.CartRows(userId))
  {
    if userId !in db.carts {
      cartId := CreateCart(db, userId);
      return cartId, [], 0;
    }
    cartId := db.carts[userId];
    var rows := JoinRows(db.lines, db.products, cartId);
    items, total := ViewCart(rows);
  }

  /**
   * The second half of `addToCart`, once the product and the cart are known:
   * merge into the cart's line for the product, refusing a merged quantity
   * above `stock`, or insert a new line.
   */
  method MergeLine(db: Database, cartId: CartId, productId: ProductId, quantity: int, stock: int) returns (r: Result<()>)
    requires db.Valid()
    requires cartId in db.carts.Values && productId in db.products
    modifies db
    ensures db.Valid()
    ensures r.Err? <==>
      var e := old(FindLine(db.lines, cartId, productId)); e.Some? && old(db.lines[e.value].quantity) + quantity > stock
    ensures r.Err? ==> r.error == InsufficientStock && unchanged(db)
    ensures db.products == old(db.products) && db.carts == old(db.carts) && db.nextCartId == old(db.nextCartId)
    ensures db.orders == old(db.orders) && db.orderItems == old(db.orderItems)
    ensures r.Ok? && old(FindLine(db.lines, cartId, productId)).Some? ==>
      var i := old(FindLine(db.lines, cartId, productId)).value;
      db.lines == old(db.lines)[i := old(db.lines)[i].(quantity := old(db.lines)[i].quantity + quantity)]
      && db.nextLineId == old(db.nextLineId)
    ensures r.Ok? && old(FindLine(db.lines, cartId, productId)).None? ==>
      db.lines == old(db.lines) + [CartLine(old(db.nextLineId), cartId, productId, quantity)]
      && db.nextLineId == old(db.nextLineId) + 1
  {
    var existing := FindLine(db.lines, cartId, productId);
    if existing.Some? {
      var i := existing.value;
      var newQuantity := db.lines[i].quantity + quantity;
      if newQuantity > stock {
        return Err(InsufficientStock);
      }
      SetLineQuantity(db.lines, i, newQuantity);
      db.lines := db.lines[i := db.lines[i].(quantity := newQuantity)];
      assert db.lines[i] in db.lines;
    } else {
      var line := CartLine(db.nextLineId, cartId, productId, quantity);
      AppendLine(db.lines, line);
      db.lines := db.lines + [line];
      db.nextLineId := db.nextLineId + 1;
    }
    r := Ok(());
  }

  /**
   * `addToCart`: merges `quantity` into the user's line for the product, or
   * inserts a new line; the cart is created first when the user has none.
   */
  method AddToCart(db: Database, userId: UserId, productId: ProductId, quantity: int) returns (r: Result<()>)
    requires db.Valid()
    modifies db
    ensures db.Valid()
    ensures r == Err(NotFound) <==> productId !in old(db.products)
    ensures r == Err(InsufficientStock) <==>
      productId in old(db.products) && (old(db.products[productId].stock) < quantity
        || old(db.MergedQuantity(userId, productId, quantity)) > old(db.products[productId].stock))
    ensures r.Ok? <==>
      productId in old(db.products) && quantity <= old(db.products[productId].stock)
      && old(db.MergedQuantity(userId, productId, quantity)) <= old(db.products[productId].stock)
    ensures r.Err? ==> unchanged(db)
    ensures r.Ok? ==> db.products == old(db.products) && db.orders == old(db.orders) && db.orderItems == old(db.orderItems)
    ensures r.Ok? && userId in old(db.carts) ==> db.carts == old(db.carts) && db.nextCartId == old(db.nextCartId)
    ensures r.Ok? && userId !in old(db.carts) ==>
      db.carts == old(db.carts)[userId := old(db.nextCartId)] && db.nextCartId == old(db.nextCartId) + 1
    ensures r.Ok? && old(db.ExistingLine(userId, productId)).Some? ==>
      var i := old(db.ExistingLine(userId, productId)).value;
      db.lines == old(db.lines)[i := old(db.lines)[i].(quantity := old(db.lines)[i].quantity + quantity)]
      && db.nextLineId == old(db.nextLineId)
    ensures r.Ok? && old(db.ExistingLine(userId, productId)).None? ==>
      db.lines == old(db.lines) + [CartLine(old(db.nextLineId), db.carts[userId], productId, quantity)]
      && db.nextLineId == old(db.nextLineId) + 1
    ensures r.Ok? ==>
      var i := db.ExistingLine(userId, productId);
      i.Some? && db.lines[i.value].quantity == old(db.MergedQuantity(userId, productId, quantity))
      && db.lines[i.value].quantity <= db.products[productId].stock
  {
    if productId !in db.products {
      return Err(NotFound);
    }
    var product := db.products[productId];
    if product.stock < quantity {
      return Err(InsufficientStock);
    }
    var cartId;
    if userId !in db.carts {
      cartId := CreateCart(db, userId);
      assert db.carts[userId] == cartId;
    } else {
      cartId := db.carts[userId];
    }
    r := MergeLine(db, cartId, productId, quantity, product.stock);
    if r.Ok? {
      var i := FindLine(old(db.lines), cartId, productId);
      if i.Some? {
        SetLineQuantity(old(db.lines), i.value, old(db.lines)[i.value].quantity + quantity);
      } else {
        AppendLine(old(db.lines), CartLine(old(db.nextLineId), cartId, productId, quantity));
      }
    }
  }

  /**
   * `addToCart` never checks the sign of the quantity: a request for -5 of a
   * product in stock, with no line for it yet, is accepted and stored as is.
   */
  method NegativeQuantityAccepted(db: Database, userId: UserId, productId: ProductId) returns (r: Result<()>)
    requires db.Valid()
    requires productId in db.products && db.products[productId].stock >= 0
    requires db.ExistingLine(userId, productId).None?
    modifies db
    ensures db.Valid()
    ensures r.Ok? && userId in db.carts
    ensures db.lines == old(db.lines) + [CartLine(old(db.nextLineId), db.carts[userId], productId, -5)]
  {
    r := AddToCart(db, userId, productId, -5);
  }

  /** `updateCartItem`: sets the quantity of one of the caller's own lines. */
  method UpdateCartItem(db: Database, userId: UserId, itemId: LineId, quantity: int) returns (r: Result<()>)
    requires db.Valid()
    modifies db
    ensures db.Valid()
    ensures r == Err(NotFound) <==> old(db.LineById(itemId)).None?
    ensures r == Err(AccessDenied) <==>
      old(db.LineById(itemId)).Some? && !old(db.OwnsCart(userId, db.LineById(itemId).value.cartId))
    ensures r == Err(InsufficientStock) <==>
      old(db.LineById(itemId)).Some? && old(db.OwnsCart(userId, db.LineById(itemId).value.cartId))
      && quantity > old(db.products[db.LineById(itemId).value.productId].stock)
    ensures r.Ok? <==>
      old(db.LineById(itemId)).Some? && old(db.OwnsCart(userId, db.LineById(itemId).value.cartId))
      && quantity <= old(db.products[db.LineById(itemId).value.productId].stock)
    ensures r.Err? ==> unchanged(db)
    ensures r.Ok? ==> db.products == old(db.products) && db.carts == old(db.carts) && db.nextCartId == old(db.nextCartId)
    ensures r.Ok? ==> db.nextLineId == old(db.nextLineId) && db.orders == old(db.orders) && db.orderItems == old(db.orderItems)
    ensures r.Ok? ==> |db.lines| == |old(db.lines)| && forall i :: 0 <= i < |db.lines| ==>
      db.lines[i] == if old(db.lines[i]).id == itemId then old(db.lines[i]).(quantity := quantity) else old(db.lines[i])
  {
    var index := LineIndex(db.lines, itemId);
    if index.None? {
      return Err(NotFound);
    }
    var i := index.value;
    var line := db.lines[i];
    if !db.OwnsCart(userId, line.cartId) {
      return Err(AccessDenied);
    }
    if quantity > db.products[line.productId].stock {
      return Err(InsufficientStock);
    }
    db.lines := db.lines[i := line.(quantity := quantity)];
    assert db.lines[i] in db.lines;
    forall j | 0 <= j < |db.lines| && j != i ensures db.lines[j].id != itemId {
      assert Compatible(old(db.lines)[i], old(db.lines)[j]);
    }
    r := Ok(());
  }

  /** `removeFromCart`: deletes one of the caller's own lines. */
  method RemoveFromCart(db: Database, userId: UserId, itemId: LineId) returns (r: Result<()>)
    requires db.Valid()
    modifies db
    ensures db.Valid()
    ensures r == Err(NotFound) <==> old(db.LineById(itemId)).None?
    ensures r == Err(AccessDenied) <==>
      old(db.LineById(itemId)).Some? && !old(db.OwnsCart(userId, db.LineById(itemId).value.cartId))
    ensures r.Ok? <==>
      old(db.LineById(itemId)).Some? && old(db.OwnsCart(userId, db.LineById(itemId).value.cartId))
    ensures r.Err? ==> unchanged(db)
    ensures r.Ok? ==> db.products == old(db.products) && db.carts == old(db.carts) && db.nextCartId == old(db.nextCartId)
    ensures r.Ok? ==> db.nextLineId == old(db.nextLineId) && db.orders == old(db.orders) && db.orderItems == old(db.orderItems)
    ensures r.Ok? ==>
      var i := old(LineIndex(db.lines, itemId)).value;
      db.lines == old(db.lines)[..i] + old(db.lines)[i + 1..]
    ensures r.Ok? ==> |db.lines| == |old(db.lines)| - 1
    ensures r.Ok? ==> forall l :: l in db.lines <==> l in old(db.lines) && l.id != itemId
  {
    var index := LineIndex(db.lines, itemId);
    if index.None? {
      return Err(NotFound);
    }
    var i := index.value;
    if !db.OwnsCart(userId, db.lines[i].cartId) {
      return Err(AccessDenied);
    }
    RemoveLineAt(db.lines, i);
    db.lines := db.lines[..i] + db.lines[i + 1..];
    r := Ok(());
  }

  /** `clearCart`: deletes every line of the user's cart and keeps the cart. */
  method ClearCart(db: Database, userId: UserId) returns (r: Result<()>)
    requires db.Valid()
    modifies db
    ensures db.Valid()
    ensures r == Err(NotFound) <==> userId !in old(db.carts)
    ensures r.Ok? <==> userId in old(db.carts)
    ensures r.Err? ==> unchanged(db)
    ensures r.Ok? ==> db.products == old(db.products) && db.carts == old(db.carts) && db.nextCartId == old(db.nextCartId)
    ensures r.Ok? ==> db.nextLineId == old(db.nextLineId) && db.orders == old(db.orders) && db.orderItems == old(db.orderItems)
    ensures r.Ok? ==> db.lines == LinesWithout(old(db.lines), db.carts[userId])
    ensures r.Ok? ==> db.CartRows(userId) == []
  {
    if userId !in db.carts {
      return Err(NotFound);
    }
    var cartId := db.carts[userId];
    LinesWithoutCompatible(db.lines, cartId);
    LinesWithoutEmptiesCart(db.lines, db.products, cartId);
    db.lines := LinesWithout(db.lines, cartId);
    r := Ok(());
  }
}
