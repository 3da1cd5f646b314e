/**
 * The relational store the controllers share, reduced to the tables the cart
 * and order handlers touch: `products` (price and stock), `cart`,
 * `cart_items`, `orders` and `order_items`. The SQL queries the handlers issue
 * are the functions of this module.
 */
module Db {
  import opened Types
  import opened Ledger

  /**
   * `SELECT ... FROM cart_items ci JOIN products p ON ci.product_id = p.id
   * WHERE ci.cart_id = ?`: the cart's lines, in table order (the query has no
   * `ORDER BY`; table order is one admissible order), each with its
   * product's current price and stock; a line whose product is gone drops out.
   */
  function JoinRows(lines: seq<CartLine>, products: map<ProductId, Product>, cartId: CartId): (rows: seq<Row>)
    ensures |rows| <= |lines|
    ensures forall k :: 0 <= k < |rows| ==>
      rows[k].productId in products && rows[k].price == products[rows[k].productId].price
      && rows[k].stock == products[rows[k].productId].stock
    ensures forall k :: 0 <= k < |rows| ==>
      (exists i :: 0 <= i < |lines| && lines[i].cartId == cartId && lines[i].id == rows[k].lineId
                   && lines[i].productId == rows[k].productId && lines[i].quantity == rows[k].quantity)
    ensures rows == [] <==> forall i :: 0 <= i < |lines| && lines[i].cartId == cartId ==> lines[i].productId !in products
  {
    if lines == [] then []
    else
      var l := lines[|lines| - 1];
      JoinRows(lines[..|lines| - 1], products, cartId)
      + (if l.cartId == cartId && l.productId in products
         then [Row(l.id, l.productId, l.quantity, products[l.productId].price, products[l.productId].stock)]
         else [])
  }

  /** `DELETE FROM cart_items WHERE cart_id = ?`: the lines of every other cart, in order. */
  function LinesWithout(lines: seq<CartLine>, cartId: CartId): (r: seq<CartLine>)
    ensures forall l :: l in r <==> l in lines && l.cartId != cartId
  {
    if lines == [] then []
    else
      var l := lines[|lines| - 1];
      LinesWithout(lines[..|lines| - 1], cartId) + (if l.cartId != cartId then [l] else [])
  }

  /** `SELECT * FROM cart_items WHERE cart_id = ? AND product_id = ?`: the first such line's position. */
  function FindLine(lines: seq<CartLine>, cartId: CartId, productId: ProductId): (r: Option<nat>)
    ensures r.Some? ==> r.value < |lines| && lines[r.value].cartId == cartId && lines[r.value].productId == productId
    ensures r.None? <==> forall i :: 0 <= i < |lines| ==> !(lines[i].cartId == cartId && lines[i].productId == productId)
  {
    if lines == [] then None
    else if lines[0].cartId == cartId && lines[0].productId == productId then Some(0)
    else match FindLine(lines[1..], cartId, productId)
      case None => None
      case Some(i) => Some(i + 1)
  }

  /** `... FROM cart_items WHERE id = ?`: the position of the line with that id. */
  function LineIndex(lines: seq<CartLine>, id: LineId): (r: Option<nat>)
    ensures r.Some? ==> r.value < |lines| && lines[r.value].id == id
    ensures r.None? <==> forall i :: 0 <= i < |lines| ==> lines[i].id != id
  {
    if lines == [] then None
    else if lines[0].id == id then Some(0)
    else match LineIndex(lines[1..], id)
      case None => None
      case Some(i) => Some(i + 1)
  }

  /** `SELECT ... FROM order_items WHERE order_id = ?`, in table order. */
  function ItemsOf(items: seq<OrderItem>, orderId: OrderId): (r: seq<OrderItem>)
    ensures forall it :: it in r <==> it in items && it.orderId == orderId
  {
    if items == [] then []
    else
      var it := items[|items| - 1];
      ItemsOf(items[..|items| - 1], orderId) + (if it.orderId == orderId then [it] else [])
  }

  /** Two cart lines can share a table: different ids, and different products when in the same cart. */
  predicate Compatible(a: CartLine, b: CartLine)
  {
    a.id != b.id && (a.cartId == b.cartId ==> a.productId != b.productId)
  }

  predicate PairwiseCompatible(lines: seq<CartLine>)
  {
    forall i, j :: 0 <= i < |lines| && 0 <= j < |lines| && i != j ==> Compatible(lines[i], lines[j])
  }

  class Database {
    var products: map<ProductId, Product>
    var carts: map<UserId, CartId>      // the `cart` table: user_id -> id
    var nextCartId: nat                 // the next auto-increment id of `cart`
    var lines: seq<CartLine>            // the `cart_items` table
    var nextLineId: nat                 // the next auto-increment id of `cart_items`
    var orders: seq<Order>              // the `orders` table; an order's id is its position
    var orderItems: seq<OrderItem>      // the `order_items` table

    /** What every handler keeps true of the tables. */
    ghost predicate Valid()
      reads this
    {
      // one cart per user, each with its own id, allocated below the counter
      && (forall u :: u in carts ==> carts[u] < nextCartId)
      && (forall u, v :: u in carts && v in carts && u != v ==> carts[u] != carts[v])
      // every line sits in an existing cart, names an existing product, and has an allocated id
      && (forall l :: l in lines ==> l.cartId in carts.Values && l.productId in products && l.id < nextLineId)
      // line ids are unique, and a cart holds at most one line per product
      && PairwiseCompatible(lines)
      // every order item belongs to an existing order
      && (forall it :: it in orderItems ==> it.orderId < |orders|)
      // every order's total is the worth of its items
      && (forall k :: 0 <= k < |orders| ==> orders[k].totalAmount == ItemsTotal(ItemsOf(orderItems, k)))
    }

    /** An empty store over a catalogue of products. */
    constructor (catalogue: map<ProductId, Product>)
      ensures Valid()
      ensures products == catalogue && carts == map[] && lines == [] && orders == [] && orderItems == []
    {
      products := catalogue;
      carts := map[];
      nextCartId := 0;
      lines := [];
      nextLineId := 0;
      orders := [];
      orderItems := [];
    }

    /** `cart.user_id = userId` for the cart a line sits in. */
    predicate OwnsCart(userId: UserId, cartId: CartId)
      reads this
    {
      userId in carts && carts[userId] == cartId
    }

    /** The user's cart lines joined with their products; none when the user has no cart. */
    function CartRows(userId: UserId): (rows: seq<Row>)
      reads this
      ensures userId !in carts ==> rows == []
      ensures userId in carts ==> rows == JoinRows(lines, products, carts[userId])
    {
      if userId in carts then JoinRows(lines, products, carts[userId]) else []
    }

    /** The position of the user's line for a product, if the user has a cart holding one. */
    function ExistingLine(userId: UserId, productId: ProductId): (r: Option<nat>)
      reads this
      ensures r.Some? ==>
        r.value < |lines| && lines[r.value].productId == productId && userId in carts && lines[r.value].cartId == carts[userId]
      ensures r.None? <==>
        userId !in carts || forall i :: 0 <= i < |lines| ==> !(lines[i].cartId == carts[userId] && lines[i].productId == productId)
    {
      if userId in carts then FindLine(lines, carts[userId], productId) else None
    }

    /** The quantity the user's line for a product would hold after adding `quantity` of it. */
    function MergedQuantity(userId: UserId, productId: ProductId, quantity: int): int
      reads this
    {
      match ExistingLine(userId, productId)
      case Some(i) => lines[i].quantity + quantity
      case None => quantity
    }

    /** The cart line with the given id. */
    function LineById(id: LineId): (r: Option<CartLine>)
      reads this
      ensures r.Some? <==> exists i :: 0 <= i < |lines| && lines[i].id == id
      ensures r.Some? ==> r.value in lines && r.value.id == id
    {
      match LineIndex(lines, id)
      case Some(i) => Some(lines[i])
      case None => None
    }
  }

  /** Creating a cart for a user without one keeps every existing cart. */
  lemma NewCartKeepsCarts(carts: map<UserId, CartId>, userId: UserId, cartId: CartId)
    requires userId !in carts
    ensures carts.Values <= carts[userId := cartId].Values
  {
    forall c | c in carts.Values ensures c in carts[userId := cartId].Values {
      var u :| u in carts && carts[u] == c;
      assert carts[userId := cartId][u] == c;
    }
  }

  /** Changing the quantity of the line at position i keeps the table well-formed and that line findable. */
  lemma SetLineQuantity(lines: seq<CartLine>, i: nat, q: int)
    requires PairwiseCompatible(lines)
    requires i < |lines|
    ensures PairwiseCompatible(lines[i := lines[i].(quantity := q)])
    ensures FindLine(lines[i := lines[i].(quantity := q)], lines[i].cartId, lines[i].productId) == Some(i)
  {
    var r := lines[i := lines[i].(quantity := q)];
    assert forall a, b :: 0 <= a < |r| && 0 <= b < |r| && a != b ==> Compatible(lines[a], lines[b]);
    assert r[i].cartId == lines[i].cartId && r[i].productId == lines[i].productId;
    forall j | 0 <= j < |r| && j != i
      ensures !(r[j].cartId == lines[i].cartId && r[j].productId == lines[i].productId)
    {
      assert Compatible(lines[i], lines[j]);
    }
  }

  /** Appending a line compatible with every other keeps the table well-formed and the new line findable. */
  lemma AppendLine(lines: seq<CartLine>, line: CartLine)
    requires PairwiseCompatible(lines)
    requires forall l :: l in lines ==> Compatible(l, line) && Compatible(line, l)
    ensures PairwiseCompatible(lines + [line])
    ensures FindLine(lines + [line], line.cartId, line.productId) == Some(|lines|)
  {
    var r := lines + [line];
    forall a, b | 0 <= a < |r| && 0 <= b < |r| && a != b ensures Compatible(r[a], r[b]) {
      if a < |lines| { assert r[a] in lines; }
      if b < |lines| { assert r[b] in lines; }
    }
    assert r[|lines|] == line;
    forall j | 0 <= j < |lines|
      ensures !(r[j].cartId == line.cartId && r[j].productId == line.productId)
    {
      assert r[j] in lines;
    }
  }

  /** Deleting the line at position i keeps the others, in order, and nothing else. */
  lemma RemoveLineAt(lines: seq<CartLine>, i: nat)
    requires PairwiseCompatible(lines)
    requires i < |lines|
    ensures PairwiseCompatible(lines[..i] + lines[i + 1..])
    ensures |lines[..i] + lines[i + 1..]| == |lines| - 1
    ensures forall l :: l in lines[..i] + lines[i + 1..] <==> l in lines && l.id != lines[i].id
  {
    var r := lines[..i] + lines[i + 1..];
    forall l | l in lines && l.id != lines[i].id ensures l in r {
      var j :| 0 <= j < |lines| && lines[j] == l;
      if j < i {
        assert r[j] == l;
      } else {
        assert r[j - 1] == l;
      }
    }
    forall l | l in r ensures l in lines && l.id != lines[i].id {
      var j :| 0 <= j < |r| && r[j] == l;
      var k := if j < i then j else j + 1;
      assert lines[k] == l;
      assert Compatible(lines[i], lines[k]);
    }
    forall a, b | 0 <= a < |r| && 0 <= b < |r| && a != b
      ensures Compatible(r[a], r[b])
    {
      var a' := if a < i then a else a + 1;
      var b' := if b < i then b else b + 1;
      assert r[a] == lines[a'] && r[b] == lines[b'];
    }
  }

  /** Removing one cart's lines keeps the remaining lines pairwise compatible. */
  lemma {:induction false} LinesWithoutCompatible(lines: seq<CartLine>, cartId: CartId)
    requires PairwiseCompatible(lines)
    ensures PairwiseCompatible(LinesWithout(lines, cartId))
  {
    if lines != [] {
      var front := lines[..|lines| - 1];
      var last := lines[|lines| - 1];
      LinesWithoutCompatible(front, cartId);
      var r := LinesWithout(lines, cartId);
      var rf := LinesWithout(front, cartId);
      if last.cartId != cartId {
        assert r == rf + [last];
        forall i | 0 <= i < |rf|
          ensures Compatible(rf[i], last) && Compatible(last, rf[i])
        {
          assert rf[i] in front;
          var j :| 0 <= j < |front| && front[j] == rf[i];
          assert lines[j] == rf[i];
        }
      }
    }
  }

  /** Clearing a cart leaves it without lines. */
  lemma LinesWithoutEmptiesCart(lines: seq<CartLine>, products: map<ProductId, Product>, cartId: CartId)
    ensures JoinRows(LinesWithout(lines, cartId), products, cartId) == []
  {
    var r := LinesWithout(lines, cartId);
    forall i | 0 <= i < |r| ensures r[i].cartId != cartId {
      assert r[i] in r;
    }
  }

  /** Clearing a cart leaves every other cart's lines as they were. */
  lemma {:induction false} LinesWithoutKeepsOthers(lines: seq<CartLine>, products: map<ProductId, Product>,
                                                   cartId: CartId, other: CartId)
    requires other != cartId
    ensures JoinRows(LinesWithout(lines, cartId), products, other) == JoinRows(lines, products, other)
  {
    if lines != [] {
      var front := lines[..|lines| - 1];
      var last := lines[|lines| - 1];
      LinesWithoutKeepsOthers(front, products, cartId, other);
      var r := LinesWithout(lines, cartId);
      if last.cartId != cartId {
        assert r == LinesWithout(front, cartId) + [last];
        assert r[..|r| - 1] == LinesWithout(front, cartId);
      } else {
        assert r == LinesWithout(front, cartId);
      }
    }
  }

  /** Clearing a cart twice is clearing it once. */
  lemma {:induction false} LinesWithoutIdempotent(lines: seq<CartLine>, cartId: CartId)
    ensures LinesWithout(LinesWithout(lines, cartId), cartId) == LinesWithout(lines, cartId)
  {
    if lines != [] {
      var front := lines[..|lines| - 1];
      var last := lines[|lines| - 1];
      LinesWithoutIdempotent(front, cartId);
      var rf := LinesWithout(front, cartId);
      var r := LinesWithout(lines, cartId);
      if last.cartId != cartId {
        assert r == rf + [last];
        assert r[..|r| - 1] == rf;
        assert r[|r| - 1] == last;
        assert LinesWithout(r, cartId) == LinesWithout(rf, cartId) + [last];
      } else {
        assert r == rf;
      }
    }
  }

  /** Every line of the cart whose product exists yields its row in the join. */
  lemma {:induction false} JoinRowsComplete(lines: seq<CartLine>, products: map<ProductId, Product>, cartId: CartId)
    ensures forall i :: 0 <= i < |lines| && lines[i].cartId == cartId && lines[i].productId in products ==>
      Row(lines[i].id, lines[i].productId, lines[i].quantity, products[lines[i].productId].price, products[lines[i].productId].stock)
      in JoinRows(lines, products, cartId)
  {
    if lines != [] {
      var front := lines[..|lines| - 1];
      JoinRowsComplete(front, products, cartId);
      forall i | 0 <= i < |front| && front[i].cartId == cartId && front[i].productId in products
        ensures lines[i] == front[i]
      {
      }
    }
  }

  /** With at most one line per product in a cart, the cart's joined rows name distinct products. */
  lemma {:induction false} JoinRowsDistinct(lines: seq<CartLine>, products: map<ProductId, Product>, cartId: CartId)
    requires PairwiseCompatible(lines)
    ensures DistinctProducts(JoinRows(lines, products, cartId))
  {
    if lines != [] {
      var front := lines[..|lines| - 1];
      var last := lines[|lines| - 1];
      JoinRowsDistinct(front, products, cartId);
      var rf := JoinRows(front, products, cartId);
      if last.cartId == cartId && last.productId in products {
        forall k | 0 <= k < |rf| ensures rf[k].productId != last.productId {
          var i :| 0 <= i < |front| && front[i].cartId == cartId && front[i].productId == rf[k].productId;
          assert Compatible(lines[i], lines[|lines| - 1]);
        }
      }
    }
  }

  /** Filtering order items distributes over appending to the table. */
  lemma {:induction false} ItemsOfAppend(a: seq<OrderItem>, b: seq<OrderItem>, orderId: OrderId)
    ensures ItemsOf(a + b, orderId) == ItemsOf(a, orderId) + ItemsOf(b, orderId)
  {
    if b != [] {
      var bf := b[..|b| - 1];
      assert (a + b)[..|a + b| - 1] == a + bf;
      assert (a + b)[|a + b| - 1] == b[|b| - 1];
      ItemsOfAppend(a, bf, orderId);
    } else {
      assert a + b == a;
    }
  }

  /** Items that all belong to one order are exactly that order's items. */
  lemma {:induction false} ItemsOfOwn(items: seq<OrderItem>, orderId: OrderId)
    requires forall i :: 0 <= i < |items| ==> items[i].orderId == orderId
    ensures ItemsOf(items, orderId) == items
  {
    if items != [] {
      ItemsOfOwn(items[..|items| - 1], orderId);
    }
  }

  /** Items of other orders contribute nothing to an order. */
  lemma ItemsOfForeign(items: seq<OrderItem>, orderId: OrderId)
    requires forall it :: it in items ==> it.orderId != orderId
    ensures ItemsOf(items, orderId) == []
  {
  }
}
