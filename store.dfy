/**
 * The order and product handlers (src/server/api/routers/orders.ts and
 * src/server/api/routers/product.ts) over one in-memory database: the
 * `order`, `product` and `stock` tables as maps from id to row, and the
 * `order_item` table as a sequence of rows in table order.
 *
 * Each handler runs its statements one after the other, as the source
 * does; a statement that fails ends the handler with the writes before it
 * kept. Ids the database would generate are parameters.
 */
module Store {
  import opened Wrappers
  import opened Schema
  import opened Lifecycle

  /** Why a handler fails: the input schema rejects the input, a lookup
    * finds no row, the database refuses a write, or one of the handler's
    * own `throw`s. */
  datatype Error =
    | BadRequest
    | NotFound
    | UniqueViolation
    | ForeignKeyViolation
    | ProductNotUpdated
    | StockNotFound
    | OutOfRange
    | StatusNotStorable

  /** A line item of a create or update input. */
  datatype NewItem = NewItem(productId: ProductId, quantity: int)

  /** `z.number().min(1)` on every item quantity. */
  predicate QuantitiesValid(xs: seq<NewItem>)
  {
    forall i :: 0 <= i < |xs| ==> xs[i].quantity >= 1
  }

  /** Every item quantity fits the `integer` column `order_item.quantity`. */
  predicate QuantitiesFit(xs: seq<NewItem>)
  {
    forall i :: 0 <= i < |xs| ==> IsInt4(xs[i].quantity)
  }

  /** The foreign key `order_item.product_id` holds for every new row. */
  predicate ProductsExist(xs: seq<NewItem>, products: map<ProductId, Product>)
  {
    forall i :: 0 <= i < |xs| ==> xs[i].productId in products
  }

  /** The `order_item` rows an insert of `xs` for order `orderId` adds. */
  function Rows(orderId: OrderId, xs: seq<NewItem>): (rows: seq<OrderItem>)
    ensures |rows| == |xs|
    ensures forall i :: 0 <= i < |xs| ==> rows[i] == OrderItem(orderId, xs[i].productId, xs[i].quantity)
  {
    if xs == [] then []
    else
      var n := |xs| - 1;
      Rows(orderId, xs[..n]) + [OrderItem(orderId, xs[n].productId, xs[n].quantity)]
  }

  /** The `order_item` rows of one order, in table order. */
  function ItemsOf(items: seq<OrderItem>, orderId: OrderId): (r: seq<OrderItem>)
    ensures forall x :: x in r <==> x in items && x.orderId == orderId
  {
    if items == [] then []
    else ItemsOf(items[..|items| - 1], orderId)
         + (if items[|items| - 1].orderId == orderId then [items[|items| - 1]] else [])
  }

  lemma {:induction false} ItemsOfAppend(a: seq<OrderItem>, b: seq<OrderItem>, orderId: OrderId)
    ensures ItemsOf(a + b, orderId) == ItemsOf(a, orderId) + ItemsOf(b, orderId)
    decreases |b|
  {
    if b != [] {
      var n := |b| - 1;
      assert (a + b)[..|a + b| - 1] == a + b[..n];
      ItemsOfAppend(a, b[..n], orderId);
    } else {
      assert a + b == a;
    }
  }

  lemma {:induction false} ItemsOfRows(orderId: OrderId, xs: seq<NewItem>, other: OrderId)
    ensures ItemsOf(Rows(orderId, xs), other) == if other == orderId then Rows(orderId, xs) else []
  {
    if xs != [] {
      var n := |xs| - 1;
      var rows := Rows(orderId, xs);
      ItemsOfRows(orderId, xs[..n], other);
      assert rows[..|rows| - 1] == Rows(orderId, xs[..n]);
      assert rows[|rows| - 1].orderId == orderId;
    }
  }

  /** `update` inserts the new items of order `orderId` after the rows
    * already there: the order keeps every item it had, in place, followed
    * by one new row per input item, and every other order's items are
    * untouched. */
  lemma {:induction false} UpdateAppendsOnly(items: seq<OrderItem>, orderId: OrderId, xs: seq<NewItem>, other: OrderId)
    ensures ItemsOf(items + Rows(orderId, xs), orderId) == ItemsOf(items, orderId) + Rows(orderId, xs)
    ensures other != orderId ==> ItemsOf(items + Rows(orderId, xs), other) == ItemsOf(items, other)
  {
    ItemsOfAppend(items, Rows(orderId, xs), orderId);
    ItemsOfRows(orderId, xs, orderId);
    ItemsOfAppend(items, Rows(orderId, xs), other);
    ItemsOfRows(orderId, xs, other);
    assert ItemsOf(items, other) + [] == ItemsOf(items, other);
  }

  /** `delete(orderItems).where(eq(orderItems.orderId, id))`. */
  function KeepOthers(items: seq<OrderItem>, orderId: OrderId): (r: seq<OrderItem>)
    ensures forall x :: x in r <==> x in items && x.orderId != orderId
  {
    if items == [] then []
    else KeepOthers(items[..|items| - 1], orderId)
         + (if items[|items| - 1].orderId == orderId then [] else [items[|items| - 1]])
  }

  /** Deleting an order's items leaves none of them, and leaves every other
    * order's items as they were, in order. */
  lemma {:induction false} DeleteKeepsOtherOrders(items: seq<OrderItem>, orderId: OrderId, other: OrderId)
    ensures ItemsOf(KeepOthers(items, orderId), orderId) == []
    ensures other != orderId ==> ItemsOf(KeepOthers(items, orderId), other) == ItemsOf(items, other)
  {
    if items != [] {
      var n := |items| - 1;
      var last := items[n];
      DeleteKeepsOtherOrders(items[..n], orderId, other);
      var tail := if last.orderId == orderId then [] else [last];
      ItemsOfAppend(KeepOthers(items[..n], orderId), tail, orderId);
      ItemsOfAppend(KeepOthers(items[..n], orderId), tail, other);
      assert ItemsOf(tail, orderId) == [] by {
        if tail != [] {
          assert tail[..0] == [];
        }
      }
      if tail != [] {
        assert tail[..0] == [];
        assert ItemsOf(tail, other) == (if last.orderId == other then [last] else []);
      }
    }
  }

  /** The order fields `create` takes; its `status` is ignored. */
  datatype OrderInput = OrderInput(total: real, status: Option<Status>, modifiedById: Option<UserId>)

  /** The optional order fields of `update`. */
  datatype OrderPatch = OrderPatch(total: Option<real>, status: Option<Status>, userId: Option<Option<UserId>>)

  /** `set({...orderData, modifiedById: ctx.user?.id})`: the fields the
    * patch gives, and the caller as modifier; a field left `undefined` is
    * not written. */
  function Patched(o: Order, patch: OrderPatch, user: Option<UserId>): (r: Order)
    ensures patch.status.None? ==> r.status == o.status
    ensures patch.status.Some? ==> r.status == patch.status.value
    ensures patch.total.None? ==> r.total == o.total
    ensures patch.total.Some? ==> r.total == patch.total.value
    ensures patch.userId.None? ==> r.userId == o.userId
    ensures patch.userId.Some? ==> r.userId == patch.userId.value
    ensures user.Some? ==> r.modifiedById == user
    ensures user.None? ==> r.modifiedById == o.modifiedById
    ensures patch == OrderPatch(None, None, None) && user.None? ==> r == o
  {
    Order(if patch.total.Some? then patch.total.value else o.total,
          if patch.status.Some? then patch.status.value else o.status,
          if patch.userId.Some? then patch.userId.value else o.userId,
          if user.Some? then user else o.modifiedById)
  }

  /** The status write of `advanceStatus` as written. The next status of a
    * New order is named `OrderItemStatus.WAITING_PAYMENT`, a member the
    * `OrderItemStatus` enum does not declare, and `order_status` has no
    * label for it either: the write cannot store it and the handler fails.
    * `Store.Database.AdvanceStatus` models the handler with the intended
    * five-label enum (`Schema.IntendedStatusLabel`). */
  function AdvanceRowAsWritten(o: Order): (r: Result<Order, Error>)
    ensures r.Success? ==> r.value == o.(status := NextStatus(o.status)) && InSchemaEnum(r.value.status)
  {
    var next := NextStatus(o.status);
    if InSchemaEnum(next) then Success(o.(status := next)) else Failure(StatusNotStorable)
  }

  /** As written, a New order can never be advanced; every other stored
    * status advances as the intended handler does. */
  lemma {:induction false} NewOrderNeverAdvances(o: Order)
    ensures AdvanceRowAsWritten(o).Failure? <==> o.status == New
    ensures o.status != New ==> AdvanceRowAsWritten(o) == Success(o.(status := NextStatus(o.status)))
  {
    NextStatusStorable(o.status);
  }

  /** With the intended enum every advance is storable and reads back as
    * the status written. */
  lemma {:induction false} IntendedEnumStoresEveryAdvance(s: Status)
    ensures ParseIntendedStatus(IntendedStatusLabel(NextStatus(s))) == Some(NextStatus(s))
    ensures s == New ==> IntendedStatusLabel(NextStatus(s)) == "waiting_payment"
  {
  }

  /** The stock transaction of `update` sends only values that fit the
    * column; otherwise it is rolled back and the handler fails. */
  predicate PatchFits(snap: seq<SnapItem>, status: Option<Status>)
  {
    && (status == Some(Cancelled) ==> WritesFit(snap, Restock))
    && (status == Some(Completed) ==> WritesFit(snap, Deduct))
  }

  /** The stock writes of `update`: a restock for a cancelling patch, a
    * deduction for a completing one, nothing otherwise. */
  function PatchStock(stock: StockTable, snap: seq<SnapItem>, status: Option<Status>): StockTable
  {
    if status == Some(Cancelled) then ApplyWrites(stock, snap, Restock)
    else if status == Some(Completed) then ApplyWrites(stock, snap, Deduct)
    else stock
  }

  /** `snap` is what reading the items `its` with their stock rows gives:
    * one entry per item, in order, with the item's quantity, the row of the
    * item's product and that row's quantity in `stock`. */
  predicate SnapshotOf(snap: seq<SnapItem>, its: seq<OrderItem>, products: map<ProductId, Product>, stock: StockTable)
  {
    && |snap| == |its|
    && forall j :: 0 <= j < |its| ==>
         && its[j].productId in products
         && products[its[j].productId].stockId in stock
         && snap[j] == SnapItem(its[j].quantity, products[its[j].productId].stockId,
                                stock[products[its[j].productId].stockId])
  }

  lemma {:induction false} SnapshotOfAppend(snap: seq<SnapItem>, its: seq<OrderItem>, products: map<ProductId, Product>,
                                            stock: StockTable, it: OrderItem)
    requires SnapshotOf(snap, its, products, stock)
    requires it.productId in products && products[it.productId].stockId in stock
    ensures SnapshotOf(snap + [SnapItem(it.quantity, products[it.productId].stockId, stock[products[it.productId].stockId])],
                       its + [it], products, stock)
  {
    var x := SnapItem(it.quantity, products[it.productId].stockId, stock[products[it.productId].stockId]);
    forall j | 0 <= j < |its| + 1
      ensures (its + [it])[j].productId in products
      ensures products[(its + [it])[j].productId].stockId in stock
      ensures (snap + [x])[j] == SnapItem((its + [it])[j].quantity, products[(its + [it])[j].productId].stockId,
                                          stock[products[(its + [it])[j].productId].stockId])
    {
      if j < |its| {
        assert (its + [it])[j] == its[j] && (snap + [x])[j] == snap[j];
      }
    }
  }

  /** The snapshot of an order holds exactly one entry per item of the
    * order, in table order: the item's quantity, the stock row of its
    * product, and the quantity that row had when read. */
  lemma {:induction false} SnapshotOfItems(items: seq<OrderItem>, products: map<ProductId, Product>,
                                           stock: StockTable, orderId: OrderId)
    requires Resolves(items, products, stock)
    ensures SnapshotOf(Snapshot(items, products, stock, orderId), ItemsOf(items, orderId), products, stock)
  {
    if items != [] {
      var n := |items| - 1;
      var it := items[n];
      assert Resolves(items[..n], products, stock) by {
        forall i | 0 <= i < n ensures items[..n][i] == items[i] { }
      }
      SnapshotOfItems(items[..n], products, stock, orderId);
      var snap, its := Snapshot(items[..n], products, stock, orderId), ItemsOf(items[..n], orderId);
      if it.orderId == orderId {
        SnapshotOfAppend(snap, its, products, stock, it);
      } else {
        assert snap + [] == snap && its + [] == its;
      }
    }
  }

  /** The stock effect of completing or cancelling an order, item by item:
    * the row of an item that no later item of the order shares ends at the
    * quantity read minus (completing) or plus (cancelling) the item's
    * quantity. */
  lemma {:induction false} EachItemWritesItsRow(items: seq<OrderItem>, products: map<ProductId, Product>,
                                                stock: StockTable, orderId: OrderId, j: nat)
    requires Resolves(items, products, stock)
    requires j < |ItemsOf(items, orderId)|
    requires var its := ItemsOf(items, orderId);
             forall l :: j < l < |its| ==> products[its[l].productId].stockId != products[its[j].productId].stockId
    ensures var its, snap := ItemsOf(items, orderId), Snapshot(items, products, stock, orderId);
            var k := products[its[j].productId].stockId;
            && k in stock
            && k in ApplyWrites(stock, snap, Deduct) && ApplyWrites(stock, snap, Deduct)[k] == stock[k] - its[j].quantity
            && k in ApplyWrites(stock, snap, Restock) && ApplyWrites(stock, snap, Restock)[k] == stock[k] + its[j].quantity
  {
    var its, snap := ItemsOf(items, orderId), Snapshot(items, products, stock, orderId);
    SnapshotOfItems(items, products, stock, orderId);
    LastWriteWins(stock, snap, Deduct, j);
    LastWriteWins(stock, snap, Restock, j);
  }

  /** A snapshot of an order's items reads only the rows of that order's
    * items' products. */
  lemma {:induction false} SnapshotAvoids(items: seq<OrderItem>, products: map<ProductId, Product>,
                                          stock: StockTable, orderId: OrderId, k: StockId)
    requires Resolves(items, products, stock)
    requires forall i :: 0 <= i < |items| && items[i].orderId == orderId ==> products[items[i].productId].stockId != k
    ensures forall j :: 0 <= j < |Snapshot(items, products, stock, orderId)| ==>
              Snapshot(items, products, stock, orderId)[j].stockId != k
  {
    if items != [] {
      var n := |items| - 1;
      assert Resolves(items[..n], products, stock) by {
        forall i | 0 <= i < n ensures items[..n][i] == items[i] { }
      }
      forall i | 0 <= i < n && items[..n][i].orderId == orderId
        ensures products[items[..n][i].productId].stockId != k
      {
        assert items[..n][i] == items[i];
      }
      SnapshotAvoids(items[..n], products, stock, orderId, k);
    }
  }

  /** The items `update` appends never reach the stock: a row that none of
    * the order's EARLIER items refers to keeps its quantity, whatever the
    * status and whichever products the new items name. */
  lemma {:induction false} AppendedItemsIgnored(items: seq<OrderItem>, products: map<ProductId, Product>,
                                                stock: StockTable, orderId: OrderId, status: Option<Status>, k: StockId)
    requires Resolves(items, products, stock) && k in stock
    requires forall i :: 0 <= i < |items| && items[i].orderId == orderId ==> products[items[i].productId].stockId != k
    ensures k in PatchStock(stock, Snapshot(items, products, stock, orderId), status)
    ensures PatchStock(stock, Snapshot(items, products, stock, orderId), status)[k] == stock[k]
  {
    var snap := Snapshot(items, products, stock, orderId);
    SnapshotAvoids(items, products, stock, orderId, k);
    ApplyWritesUntouched(stock, snap, Restock, k);
    ApplyWritesUntouched(stock, snap, Deduct, k);
  }

  /** Valid references let every item follow its product to its stock row. */
  lemma ReferencesResolve(orders: map<OrderId, Order>, items: seq<OrderItem>,
                          products: map<ProductId, Product>, stock: StockTable)
    requires References(orders, items, products, stock)
    ensures Resolves(items, products, stock)
  {
  }

  /** The fields of a product `create` takes, besides its quantity. */
  datatype ProductInput = ProductInput(name: string, price: real, modifiedById: Option<UserId>)

  /** The optional product fields of `update`: every column of the select
    * schema made optional, the creator included. */
  datatype ProductPatch = ProductPatch(name: Option<string>, price: Option<real>, stockId: Option<StockId>,
                                       createdById: Option<UserId>)

  /** `set({...values, modifiedById})`: each field given replaces the
    * column, the others stay, and the caller becomes the modifier. */
  function PatchedProduct(p: Product, patch: ProductPatch, user: UserId): (r: Product)
    ensures r.modifiedById == Some(user)
    ensures patch.name.None? ==> r.name == p.name
    ensures patch.name.Some? ==> r.name == patch.name.value
    ensures patch.price.None? ==> r.price == p.price
    ensures patch.price.Some? ==> r.price == patch.price.value
    ensures patch.stockId.None? ==> r.stockId == p.stockId
    ensures patch.stockId.Some? ==> r.stockId == patch.stockId.value
    ensures patch.createdById.None? ==> r.createdById == p.createdById
    ensures patch.createdById.Some? ==> r.createdById == patch.createdById.value
    ensures patch == ProductPatch(None, None, None, None) ==> r == p.(modifiedById := Some(user))
  {
    Product(if patch.name.Some? then patch.name.value else p.name,
            if patch.price.Some? then patch.price.value else p.price,
            if patch.stockId.Some? then patch.stockId.value else p.stockId,
            if patch.createdById.Some? then patch.createdById.value else p.createdById,
            Some(user))
  }

  /** `z.number().min(0).max(1000000)` on a stock quantity. */
  predicate QuantityInRange(q: int) { 0 <= q <= 1000000 }

  /** The statement `update(stock).set({id: rowId, quantity: q})` as
    * written, with no `where`: it rewrites EVERY row of the table to id
    * `rowId` and quantity `q`. On an empty table it changes nothing; on a
    * table of one row it leaves one row `rowId`; with two rows or more the
    * rewritten ids collide on the primary key and the statement fails,
    * writing nothing. */
  function UnfilteredStockSet(stock: StockTable, rowId: StockId, q: int): (r: Result<StockTable, Error>)
    ensures r.Success? <==> |stock.Keys| <= 1
    ensures r.Success? && stock != map[] ==> r.value == map[rowId := q]
  {
    if |stock.Keys| == 0 then Success(stock)
    else if |stock.Keys| == 1 then Success(map[rowId := q])
    else Failure(UniqueViolation)
  }

  /** With two products, each with its own stock row, changing the first
    * product's quantity through `update` does not update its row: the
    * statement fails, leaving both rows as they were. */
  lemma {:induction false} UnfilteredStockSetFails(stock: StockTable, a: StockId, b: StockId, q: int)
    requires a in stock && b in stock && a != b
    ensures UnfilteredStockSet(stock, a, q) == Failure(UniqueViolation)
  {
    assert {a, b} <= stock.Keys;
    assert |{a, b}| == 2;
    SubsetCard({a, b}, stock.Keys);
  }

  lemma SubsetCard<T>(a: set<T>, b: set<T>)
    requires a <= b
    ensures |a| <= |b|
  {
    assert b == a + (b - a);
  }

  /** Rows inserted for an existing order and existing products keep the
    * foreign keys. */
  lemma {:induction false} InsertKeepsReferences(orders: map<OrderId, Order>, items: seq<OrderItem>,
                                                 products: map<ProductId, Product>, stock: StockTable,
                                                 id: OrderId, xs: seq<NewItem>)
    requires References(orders, items, products, stock)
    requires id in orders && ProductsExist(xs, products)
    ensures References(orders, items + Rows(id, xs), products, stock)
  {
    var all := items + Rows(id, xs);
    forall i | 0 <= i < |all| ensures all[i].orderId in orders && all[i].productId in products {
      if i >= |items| {
        assert all[i] == Rows(id, xs)[i - |items|];
      }
    }
  }

  /** Writes that keep the set of stock rows, and row updates that keep the
    * set of orders, keep the foreign keys. */
  lemma {:induction false} SameKeysKeepReferences(orders: map<OrderId, Order>, items: seq<OrderItem>,
                                                  products: map<ProductId, Product>, stock: StockTable,
                                                  orders': map<OrderId, Order>, stock': StockTable)
    requires References(orders, items, products, stock)
    requires orders'.Keys == orders.Keys && stock'.Keys == stock.Keys
    ensures References(orders', items, products, stock')
  {
    forall i | 0 <= i < |items| ensures items[i].orderId in orders' {
      assert items[i].orderId in orders;
    }
    forall p | p in products ensures products[p].stockId in stock' {
      assert products[p].stockId in stock;
    }
  }

  class Database {
    var orders: map<OrderId, Order>
    var items: seq<OrderItem>
    var products: map<ProductId, Product>
    var stock: StockTable

    /** The foreign keys of the schema hold. */
    ghost predicate Valid()
      reads this
    {
      References(orders, items, products, stock)
    }

    constructor ()
      ensures Valid()
      ensures orders == map[] && items == [] && products == map[] && stock == map[]
    {
      orders := map[];
      items := [];
      products := map[];
      stock := map[];
    }

    /** The items of order `orderId`, each with its product's stock row as
      * the handler's relational query reads them. */
    function Pending(orderId: OrderId): seq<SnapItem>
      reads this
      requires Valid()
    {
      ReferencesResolve(orders, items, products, stock);
      Snapshot(items, products, stock, orderId)
    }

    /** The transaction around the `for` loop of stock updates: one `set`
      * per item, in order, each to the value computed from the snapshot. A
      * value outside the column's range fails its statement, and the
      * transaction rolls back every earlier write. */
    method WriteStock(snap: seq<SnapItem>, dir: Direction) returns (ok: bool)
      modifies this`stock
      ensures ok <==> WritesFit(snap, dir)
      ensures ok ==> stock == ApplyWrites(old(stock), snap, dir)
      ensures !ok ==> stock == old(stock)
      ensures stock.Keys == old(stock).Keys
    {
      var saved := stock;
      var i := 0;
      while i < |snap|
        invariant 0 <= i <= |snap|
        invariant stock == ApplyWrites(saved, snap[..i], dir)
        invariant WritesFit(snap[..i], dir)
      {
        var it := snap[i];
        if !IsInt4(Written(it, dir)) {
          stock := saved;
          ApplyWritesKeys(saved, snap, dir);
          return false;
        }
        if it.stockId in stock {
          stock := stock[it.stockId := Written(it, dir)];
        }
        assert snap[..i + 1][..i] == snap[..i];
        assert forall j :: 0 <= j < i ==> snap[..i + 1][j] == snap[..i][j];
        i := i + 1;
      }
      assert snap[..|snap|] == snap;
      ApplyWritesKeys(saved, snap, dir);
      ok := true;
    }

    /** `orders.create`: a new order row in status New, whatever status the
      * input carries, then one `order_item` row per input item. The two
      * inserts are separate statements: an item quantity outside the
      * `integer` range, or an item naming a missing product, fails the
      * second, and the order row stays. */
    method CreateOrder(newId: OrderId, user: Option<UserId>, input: OrderInput, xs: seq<NewItem>)
      returns (r: Result<Order, Error>)
      modifies this
      ensures old(Valid()) ==> Valid()
      ensures products == old(products) && stock == old(stock)
      ensures !QuantitiesValid(xs) ==> r == Failure(BadRequest) && unchanged(this)
      ensures QuantitiesValid(xs) && newId in old(orders) ==> r == Failure(UniqueViolation) && unchanged(this)
      ensures QuantitiesValid(xs) && newId !in old(orders) ==>
                && orders == old(orders)[newId := Order(input.total, New, user, input.modifiedById)]
                && (!QuantitiesFit(xs) ==>
                      r == Failure(OutOfRange) && items == old(items))
                && (QuantitiesFit(xs) && ProductsExist(xs, old(products)) ==>
                      r == Success(orders[newId]) && items == old(items) + Rows(newId, xs))
                && (QuantitiesFit(xs) && !ProductsExist(xs, old(products)) ==>
                      r == Failure(ForeignKeyViolation) && items == old(items))
      ensures r.Success? ==> r.value.status == New
    {
      if !QuantitiesValid(xs) {
        return Failure(BadRequest);
      }
      if newId in orders {
        return Failure(UniqueViolation);
      }
      var order := Order(input.total, New, user, input.modifiedById);
      orders := orders[newId := order];
      if |xs| > 0 {
        if !QuantitiesFit(xs) {
          return Failure(OutOfRange);
        }
        if !ProductsExist(xs, products) {
          return Failure(ForeignKeyViolation);
        }
        items := items + Rows(newId, xs);
      }
      r := Success(order);
    }

    /** `orders.update`: read the order's items and their stock rows, append
      * the new items, then restock (status Cancelled) or deduct (status
      * Completed) from what was read, then patch the order row. An unknown
      * id is not an error: with no new items nothing is written. A stock
      * value outside the `integer` range rolls the stock transaction back
      * and fails the handler after the items were appended, before the
      * order row is patched. */
    method UpdateOrder(id: OrderId, user: Option<UserId>, patch: OrderPatch, xs: seq<NewItem>)
      returns (r: Result<(), Error>)
      requires Valid()
      modifies this
      ensures Valid()
      ensures !QuantitiesValid(xs) ==> r == Failure(BadRequest) && unchanged(this)
      ensures QuantitiesValid(xs) && !QuantitiesFit(xs) ==> r == Failure(OutOfRange) && unchanged(this)
      ensures QuantitiesValid(xs) && QuantitiesFit(xs) && |xs| > 0 && !(id in old(orders) && ProductsExist(xs, old(products))) ==>
                r == Failure(ForeignKeyViolation) && unchanged(this)
      ensures QuantitiesValid(xs) && QuantitiesFit(xs) && (|xs| == 0 || (id in old(orders) && ProductsExist(xs, old(products)))) ==>
                && items == old(items) + Rows(id, xs)
                && products == old(products)
                && (PatchFits(old(Pending(id)), patch.status) ==>
                      && r == Success(())
                      && stock == PatchStock(old(stock), old(Pending(id)), patch.status)
                      && orders == (if id in old(orders) then old(orders)[id := Patched(old(orders)[id], patch, user)]
                                    else old(orders)))
                && (!PatchFits(old(Pending(id)), patch.status) ==>
                      r == Failure(OutOfRange) && stock == old(stock) && orders == old(orders))
    {
      if !QuantitiesValid(xs) {
        return Failure(BadRequest);
      }
      var snap := Pending(id);
      if |xs| > 0 {
        if !QuantitiesFit(xs) {
          return Failure(OutOfRange);
        }
        if !(id in orders && ProductsExist(xs, products)) {
          return Failure(ForeignKeyViolation);
        }
        InsertKeepsReferences(orders, items, products, stock, id, xs);
        items := items + Rows(id, xs);
      }
      ghost var before := stock;
      var ok := true;
      if patch.status == Some(Cancelled) {
        ok := WriteStock(snap, Restock);
      }
      if patch.status == Some(Completed) {
        ok := WriteStock(snap, Deduct);
      }
      assert ok <==> PatchFits(snap, patch.status);
      SameKeysKeepReferences(orders, items, products, before, orders, stock);
      if !ok {
        return Failure(OutOfRange);
      }
      assert stock == PatchStock(before, snap, patch.status);
      var patched := if id in orders then orders[id := Patched(orders[id], patch, user)] else orders;
      SameKeysKeepReferences(orders, items, products, stock, patched, stock);
      orders := patched;
      r := Success(());
    }

    /** `orders.advanceStatus`: the order's next status; when that is
      * Completed, first the stock writes of every item, deducted from the
      * quantities read with the order. A stock value outside the `integer`
      * range rolls the transaction back and fails the handler before the
      * status is written. */
    method AdvanceStatus(id: OrderId) returns (r: Result<Order, Error>)
      requires Valid()
      modifies this
      ensures Valid()
      ensures id !in old(orders) ==> r == Failure(NotFound) && unchanged(this)
      ensures id in old(orders) ==>
                var next := NextStatus(old(orders)[id].status);
                && (next == Completed && !WritesFit(old(Pending(id)), Deduct) ==>
                      r == Failure(OutOfRange) && unchanged(this))
                && (next != Completed || WritesFit(old(Pending(id)), Deduct) ==>
                      && r == Success(old(orders)[id].(status := next))
                      && orders == old(orders)[id := old(orders)[id].(status := next)]
                      && stock == (if next == Completed then ApplyWrites(old(stock), old(Pending(id)), Deduct) else old(stock))
                      && items == old(items) && products == old(products))
    {
      if id !in orders {
        return Failure(NotFound);
      }
      var order := orders[id];
      var snap := Pending(id);
      var next := NextStatus(order.status);
      if next == Completed {
        var ok := WriteStock(snap, Deduct);
        if !ok {
          return Failure(OutOfRange);
        }
      }
      orders := orders[id := order.(status := next)];
      r := Success(orders[id]);
    }

    /** `orders.delete`: the order's items first, then the order. */
    method DeleteOrder(id: OrderId)
      modifies this
      ensures old(Valid()) ==> Valid()
      ensures items == KeepOthers(old(items), id)
      ensures orders == old(orders) - {id}
      ensures products == old(products) && stock == old(stock)
    {
      items := KeepOthers(items, id);
      orders := orders - {id};
    }

    /** `products.create`: a stock row holding the quantity, then the
      * product pointing at it. Two statements: if the second fails the new
      * stock row stays. */
    method CreateProduct(stockId: StockId, productId: ProductId, user: UserId, input: ProductInput, quantity: int)
      returns (r: Result<Product, Error>)
      modifies this
      ensures old(Valid()) ==> Valid()
      ensures orders == old(orders) && items == old(items)
      ensures !QuantityInRange(quantity) ==> r == Failure(BadRequest) && unchanged(this)
      ensures QuantityInRange(quantity) && stockId in old(stock) ==> r == Failure(UniqueViolation) && unchanged(this)
      ensures QuantityInRange(quantity) && stockId !in old(stock) ==>
                && stock == old(stock)[stockId := quantity]
                && (productId in old(products) ==> r == Failure(UniqueViolation) && products == old(products))
                && (productId !in old(products) ==>
                      && r == Success(Product(input.name, input.price, stockId, user, input.modifiedById))
                      && products == old(products)[productId := r.value])
    {
      if !QuantityInRange(quantity) {
        return Failure(BadRequest);
      }
      if stockId in stock {
        return Failure(UniqueViolation);
      }
      stock := stock[stockId := quantity];
      if productId in products {
        return Failure(UniqueViolation);
      }
      var p := Product(input.name, input.price, stockId, user, input.modifiedById);
      products := products[productId := p];
      r := Success(p);
    }

    /** `products.update`: patch the product row, then look up its stock
      * row and, when the requested quantity differs from it, set that row
      * to the quantity. The stock row is looked up after the product write,
      * so a missing row fails the handler with the product already
      * changed. The write to the row is the one `update` evidently means:
      * the statement in the source lacks its `where` (UnfilteredStockSet). */
    method UpdateProduct(id: ProductId, user: UserId, patch: ProductPatch, quantity: int)
      returns (r: Result<Product, Error>)
      modifies this
      ensures old(Valid()) ==> Valid()
      ensures orders == old(orders) && items == old(items)
      ensures !QuantityInRange(quantity) ==> r == Failure(BadRequest) && unchanged(this)
      ensures QuantityInRange(quantity) && id !in old(products) ==> r == Failure(ProductNotUpdated) && unchanged(this)
      ensures QuantityInRange(quantity) && id in old(products) && patch.stockId.Some? && patch.stockId.value !in old(stock) ==>
                r == Failure(ForeignKeyViolation) && unchanged(this)
      ensures QuantityInRange(quantity) && id in old(products) && !(patch.stockId.Some? && patch.stockId.value !in old(stock)) ==>
                var p := PatchedProduct(old(products)[id], patch, user);
                && products == old(products)[id := p]
                && (p.stockId !in old(stock) ==> r == Failure(StockNotFound) && stock == old(stock))
                && (p.stockId in old(stock) ==>
                      && r == Success(p)
                      && (quantity == old(stock)[p.stockId] ==> stock == old(stock))
                      && (quantity != old(stock)[p.stockId] ==> stock == old(stock)[p.stockId := quantity]))
    {
      if !QuantityInRange(quantity) {
        return Failure(BadRequest);
      }
      if id !in products {
        return Failure(ProductNotUpdated);
      }
      if patch.stockId.Some? && patch.stockId.value !in stock {
        return Failure(ForeignKeyViolation);
      }
      var p := PatchedProduct(products[id], patch, user);
      products := products[id := p];
      if p.stockId !in stock {
        return Failure(StockNotFound);
      }
      var prev := stock[p.stockId];
      if quantity != prev {
        stock := stock[p.stockId := quantity];
      }
      r := Success(p);
    }

    /** `products.updateProductStock`: set the quantity of the one row with
      * that id; an unknown id matches no row. */
    method UpdateProductStock(stockId: StockId, quantity: int) returns (r: Result<(), Error>)
      modifies this`stock
      ensures old(Valid()) ==> Valid()
      ensures !QuantityInRange(quantity) ==> r == Failure(BadRequest) && stock == old(stock)
      ensures QuantityInRange(quantity) ==>
                && r == Success(())
                && stock == (if stockId in old(stock) then old(stock)[stockId := quantity] else old(stock))
    {
      if !QuantityInRange(quantity) {
        return Failure(BadRequest);
      }
      if stockId in stock {
        stock := stock[stockId := quantity];
      }
      r := Success(());
    }

    /** `products.delete`: refused by the foreign key while an order item
      * names the product; the product's stock row is left in place. */
    method DeleteProduct(id: ProductId) returns (r: Result<(), Error>)
      modifies this`products
      ensures old(Valid()) ==> Valid()
      ensures orders == old(orders) && items == old(items) && stock == old(stock)
      ensures (exists i :: 0 <= i < |items| && items[i].productId == id) ==>
                r == Failure(ForeignKeyViolation) && products == old(products)
      ensures (forall i :: 0 <= i < |items| ==> items[i].productId != id) ==>
                r == Success(()) && products == old(products) - {id}
    {
      if exists i :: 0 <= i < |items| && items[i].productId == id {
        return Failure(ForeignKeyViolation);
      }
      products := products - {id};
      r := Success(());
    }
  }
}
