/**
 * The arithmetic of checkout and cancellation: order totals, the per-product
 * stock decrements a checkout applies and the increments a cancellation
 * applies, each as a fold over the rows in the order the handlers visit them.
 *
 * The folds recurse on the LAST element, so that "the fold of the first i
 * rows" is exactly what the handlers' accumulating loops hold after i steps.
 */
module Ledger {
  import opened Types

  /** Sum of price × quantity over joined cart rows. */
  function RowsTotal(rows: seq<Row>): int
  {
    if rows == [] then 0
    else RowsTotal(rows[..|rows| - 1]) + rows[|rows| - 1].price * rows[|rows| - 1].quantity
  }

  /** Sum of price × quantity over order items. */
  function ItemsTotal(items: seq<OrderItem>): int
  {
    if items == [] then 0
    else ItemsTotal(items[..|items| - 1]) + items[|items| - 1].price * items[|items| - 1].quantity
  }

  /** The order items checkout writes for the rows of a cart: one per row, same order. */
  function ItemsFromRows(rows: seq<Row>, orderId: OrderId): (items: seq<OrderItem>)
    ensures |items| == |rows|
    ensures forall i :: 0 <= i < |rows| ==>
      items[i] == OrderItem(orderId, rows[i].productId, rows[i].quantity, rows[i].price)
  {
    if rows == [] then []
    else
      var last := rows[|rows| - 1];
      ItemsFromRows(rows[..|rows| - 1], orderId) + [OrderItem(orderId, last.productId, last.quantity, last.price)]
  }

  /** Total quantity the rows ask of product p. */
  function RowsQty(rows: seq<Row>, p: ProductId): int
  {
    if rows == [] then 0
    else RowsQty(rows[..|rows| - 1], p) + (if rows[|rows| - 1].productId == p then rows[|rows| - 1].quantity else 0)
  }

  /** Total quantity the items hold of product p. */
  function ItemsQty(items: seq<OrderItem>, p: ProductId): int
  {
    if items == [] then 0
    else ItemsQty(items[..|items| - 1], p) + (if items[|items| - 1].productId == p then items[|items| - 1].quantity else 0)
  }

  /** `UPDATE products SET stock = stock - q WHERE id = p`: no row, no effect. */
  function Take(products: map<ProductId, Product>, p: ProductId, q: int): (r: map<ProductId, Product>)
    ensures r.Keys == products.Keys
    ensures p in products ==> r[p].stock == products[p].stock - q && r[p].price == products[p].price
    ensures forall o :: o in products && o != p ==> r[o] == products[o]
  {
    if p in products then products[p := products[p].(stock := products[p].stock - q)] else products
  }

  /** `UPDATE products SET stock = stock + q WHERE id = p`: no row, no effect. */
  function Put(products: map<ProductId, Product>, p: ProductId, q: int): (r: map<ProductId, Product>)
    ensures r.Keys == products.Keys
    ensures p in products ==> r[p].stock == products[p].stock + q && r[p].price == products[p].price
    ensures forall o :: o in products && o != p ==> r[o] == products[o]
  {
    if p in products then products[p := products[p].(stock := products[p].stock + q)] else products
  }

  /** The stock decrements of a checkout, row after row. */
  function Reserve(products: map<ProductId, Product>, rows: seq<Row>): (r: map<ProductId, Product>)
    ensures r.Keys == products.Keys
    ensures forall p :: p in products ==> r[p].price == products[p].price
  {
    if rows == [] then products
    else Take(Reserve(products, rows[..|rows| - 1]), rows[|rows| - 1].productId, rows[|rows| - 1].quantity)
  }

  /** The stock increments of a cancellation, item after item. */
  function Release(products: map<ProductId, Product>, items: seq<OrderItem>): (r: map<ProductId, Product>)
    ensures r.Keys == products.Keys
    ensures forall p :: p in products ==> r[p].price == products[p].price
  {
    if items == [] then products
    else Put(Release(products, items[..|items| - 1]), items[|items| - 1].productId, items[|items| - 1].quantity)
  }

  predicate DistinctProducts(rows: seq<Row>)
  {
    forall i, j :: 0 <= i < j < |rows| ==> rows[i].productId != rows[j].productId
  }

  predicate StockNonNegative(products: map<ProductId, Product>)
  {
    forall p :: p in products ==> products[p].stock >= 0
  }

  /** A reservation lowers each product's stock by what the rows ask of it and changes nothing else. */
  lemma {:induction false} ReserveStock(products: map<ProductId, Product>, rows: seq<Row>)
    ensures Reserve(products, rows).Keys == products.Keys
    ensures forall p :: p in products ==>
      Reserve(products, rows)[p] == products[p].(stock := products[p].stock - RowsQty(rows, p))
  {
    if rows != [] {
      ReserveStock(products, rows[..|rows| - 1]);
    }
  }

  /** A release raises each product's stock by what the items hold of it and changes nothing else. */
  lemma {:induction false} ReleaseStock(products: map<ProductId, Product>, items: seq<OrderItem>)
    ensures Release(products, items).Keys == products.Keys
    ensures forall p :: p in products ==>
      Release(products, items)[p] == products[p].(stock := products[p].stock + ItemsQty(items, p))
  {
    if items != [] {
      ReleaseStock(products, items[..|items| - 1]);
    }
  }

  /** The items written for some rows hold exactly the quantities the rows ask. */
  lemma {:induction false} ItemsFromRowsQty(rows: seq<Row>, orderId: OrderId, p: ProductId)
    ensures ItemsQty(ItemsFromRows(rows, orderId), p) == RowsQty(rows, p)
  {
    if rows != [] {
      var items := ItemsFromRows(rows, orderId);
      assert items[..|items| - 1] == ItemsFromRows(rows[..|rows| - 1], orderId);
      ItemsFromRowsQty(rows[..|rows| - 1], orderId, p);
    }
  }

  /** The items written for some rows are worth exactly the rows' total. */
  lemma {:induction false} ItemsFromRowsTotal(rows: seq<Row>, orderId: OrderId)
    ensures ItemsTotal(ItemsFromRows(rows, orderId)) == RowsTotal(rows)
  {
    if rows != [] {
      var items := ItemsFromRows(rows, orderId);
      assert items[..|items| - 1] == ItemsFromRows(rows[..|rows| - 1], orderId);
      ItemsFromRowsTotal(rows[..|rows| - 1], orderId);
    }
  }

  /** Releasing the items a checkout wrote restores every stock the checkout reserved. */
  lemma ReleaseUndoesReserve(products: map<ProductId, Product>, rows: seq<Row>, orderId: OrderId)
    ensures Release(Reserve(products, rows), ItemsFromRows(rows, orderId)) == products
  {
    var reserved := Reserve(products, rows);
    var items := ItemsFromRows(rows, orderId);
    ReserveStock(products, rows);
    ReleaseStock(reserved, items);
    forall p | p in products
      ensures Release(reserved, items)[p] == products[p]
    {
      ItemsFromRowsQty(rows, orderId, p);
    }
  }

  /** A product no row mentions is asked for nothing. */
  lemma {:induction false} RowsQtyAbsent(rows: seq<Row>, p: ProductId)
    requires forall i :: 0 <= i < |rows| ==> rows[i].productId != p
    ensures RowsQty(rows, p) == 0
  {
    if rows != [] {
      RowsQtyAbsent(rows[..|rows| - 1], p);
    }
  }

  /** With one row per product, a product is asked for exactly its row's quantity. */
  lemma {:induction false} RowsQtyUnique(rows: seq<Row>, i: nat)
    requires DistinctProducts(rows)
    requires i < |rows|
    ensures RowsQty(rows, rows[i].productId) == rows[i].quantity
  {
    var front := rows[..|rows| - 1];
    if i == |rows| - 1 {
      RowsQtyAbsent(front, rows[i].productId);
    } else {
      RowsQtyUnique(front, i);
    }
  }

  /**
   * With one row per product and each row asking no more than its product's
   * stock, a reservation leaves every stock non-negative.
   */
  lemma ReserveNonNegative(products: map<ProductId, Product>, rows: seq<Row>)
    requires StockNonNegative(products)
    requires DistinctProducts(rows)
    requires forall i :: 0 <= i < |rows| ==>
      rows[i].productId in products && rows[i].stock == products[rows[i].productId].stock
      && rows[i].quantity <= rows[i].stock
    ensures StockNonNegative(Reserve(products, rows))
  {
    ReserveStock(products, rows);
    forall p | p in products
      ensures Reserve(products, rows)[p].stock >= 0
    {
      if i :| 0 <= i < |rows| && rows[i].productId == p {
        RowsQtyUnique(rows, i);
      } else {
        RowsQtyAbsent(rows, p);
      }
    }
  }

  /**
   * With one row per product, a reservation lowers each ordered product's
   * stock by exactly its row's quantity and leaves every other product as it was.
   */
  lemma ReserveEffect(products: map<ProductId, Product>, rows: seq<Row>)
    requires DistinctProducts(rows)
    requires forall i :: 0 <= i < |rows| ==> rows[i].productId in products
    ensures Reserve(products, rows).Keys == products.Keys
    ensures forall i :: 0 <= i < |rows| ==>
      Reserve(products, rows)[rows[i].productId].stock == products[rows[i].productId].stock - rows[i].quantity
    ensures forall p :: p in products && (forall i :: 0 <= i < |rows| ==> rows[i].productId != p) ==>
      Reserve(products, rows)[p] == products[p]
  {
    ReserveStock(products, rows);
    forall i | 0 <= i < |rows|
      ensures Reserve(products, rows)[rows[i].productId].stock == products[rows[i].productId].stock - rows[i].quantity
    {
      RowsQtyUnique(rows, i);
    }
    forall p | p in products && (forall i :: 0 <= i < |rows| ==> rows[i].productId != p)
      ensures Reserve(products, rows)[p] == products[p]
    {
      RowsQtyAbsent(rows, p);
    }
  }

  /** Items with non-negative quantities released onto non-negative stock keep it non-negative. */
  lemma {:induction false} ReleaseNonNegative(products: map<ProductId, Product>, items: seq<OrderItem>)
    requires StockNonNegative(products)
    requires forall i :: 0 <= i < |items| ==> items[i].quantity >= 0
    ensures StockNonNegative(Release(products, items))
  {
    if items != [] {
      ReleaseNonNegative(products, items[..|items| - 1]);
    }
  }

  /** Releasing an item with a negative quantity onto a stock of zero leaves that stock below zero. */
  lemma NegativeItemBreaksStock(products: map<ProductId, Product>, it: OrderItem)
    requires it.productId in products && products[it.productId].stock == 0 && it.quantity < 0
    ensures !StockNonNegative(Release(products, [it]))
  {
    assert [it][..0] == [];
    assert Release(products, [it])[it.productId].stock == it.quantity;
  }
}
