/**
 * The pure part of the order handlers (src/server/api/routers/orders.ts):
 * the status an order advances to, and what a loop of stock `set`s computed
 * from a snapshot leaves in the stock table.
 */
module Lifecycle {
  import opened Schema

  /** The `switch` of `advanceStatus`. */
  function NextStatus(s: Status): (r: Status)
    ensures r == Completed <==> s == InProgress
    ensures r != New
  {
    match s
    case New => WaitingPayment
    case WaitingPayment => InProgress
    case InProgress => Completed
    case _ => Cancelled
  }

  /** `n` advances in a row. */
  function Advance(s: Status, n: nat): Status
    decreases n
  {
    if n == 0 then s else Advance(NextStatus(s), n - 1)
  }

  /** Only the happy path moves forward; everything else, including a
    * completed or a cancelled order, is cancelled. */
  lemma {:induction false} NextStatusForward(s: Status)
    ensures NextStatus(s) != Cancelled <==> s in {New, WaitingPayment, InProgress}
    ensures s == Cancelled ==> NextStatus(s) == Cancelled
  {
  }

  /** A new order is completed after exactly three advances. */
  lemma {:induction false} NewToCompleted()
    ensures Advance(New, 3) == Completed
    ensures forall n :: 0 <= n < 3 ==> Advance(New, n) != Completed
  {
    assert Advance(New, 1) == WaitingPayment by {
      assert Advance(WaitingPayment, 0) == WaitingPayment;
    }
    assert Advance(New, 2) == InProgress by {
      assert Advance(WaitingPayment, 1) == Advance(InProgress, 0);
    }
    assert Advance(New, 3) == Completed by {
      assert Advance(New, 3) == Advance(WaitingPayment, 2) == Advance(InProgress, 1) == Advance(Completed, 0);
    }
  }

  /** Whatever the status, four advances cancel the order, and it stays
    * cancelled. */
  lemma {:induction false} AdvanceEndsCancelled(s: Status, n: nat)
    requires n >= 4
    ensures Advance(s, n) == Cancelled
  {
    AdvanceSplit(s, 4, n - 4);
    AdvanceFour(s);
    CancelledAbsorbs(n - 4);
  }

  lemma {:induction false} AdvanceFour(s: Status)
    ensures Advance(s, 4) == Cancelled
  {
    var s1 := NextStatus(s);
    var s2 := NextStatus(s1);
    var s3 := NextStatus(s2);
    assert Advance(s, 4) == Advance(s1, 3) == Advance(s2, 2) == Advance(s3, 1) == Advance(NextStatus(s3), 0);
  }

  lemma {:induction false} AdvanceSplit(s: Status, m: nat, n: nat)
    ensures Advance(s, m + n) == Advance(Advance(s, m), n)
    decreases m
  {
    if m > 0 {
      AdvanceSplit(NextStatus(s), m - 1, n);
    }
  }

  lemma {:induction false} CancelledAbsorbs(n: nat)
    ensures Advance(Cancelled, n) == Cancelled
  {
    if n > 0 {
      CancelledAbsorbs(n - 1);
    }
  }

  /** An advance reaches a status the stored enum can hold unless it starts
    * from New, whose successor WaitingPayment has no label there. */
  lemma {:induction false} NextStatusStorable(s: Status)
    ensures InSchemaEnum(NextStatus(s)) <==> s != New
  {
  }

  /** A line item as a handler read it, before it writes anything: the
    * item's quantity, its product's stock row and that row's quantity. */
  datatype SnapItem = SnapItem(quantity: int, stockId: StockId, stockQuantity: int)

  /** Cancelling puts the quantity back; completing takes it out. */
  datatype Direction = Restock | Deduct

  /** The value a write assigns: absolute, from the snapshot. */
  function Written(it: SnapItem, dir: Direction): int
  {
    match dir
    case Restock => it.stockQuantity + it.quantity
    case Deduct => it.stockQuantity - it.quantity
  }

  /** One `update(stock).set({quantity}).where(eq(stock.id, ...))`: a row
    * that is not there is not changed. */
  function WriteOne(stock: StockTable, it: SnapItem, dir: Direction): StockTable
  {
    if it.stockId in stock then stock[it.stockId := Written(it, dir)] else stock
  }

  /** Every value the writes of `snap` send fits the `integer` column. */
  predicate WritesFit(snap: seq<SnapItem>, dir: Direction)
  {
    forall j :: 0 <= j < |snap| ==> IsInt4(Written(snap[j], dir))
  }

  /** The stock table after the writes of `snap`, in order. */
  function ApplyWrites(stock: StockTable, snap: seq<SnapItem>, dir: Direction): StockTable
  {
    if snap == [] then stock else WriteOne(ApplyWrites(stock, snap[..|snap| - 1], dir), snap[|snap| - 1], dir)
  }

  /** No row is added or removed. */
  lemma {:induction false} ApplyWritesKeys(stock: StockTable, snap: seq<SnapItem>, dir: Direction)
    ensures ApplyWrites(stock, snap, dir).Keys == stock.Keys
  {
    if snap != [] {
      ApplyWritesKeys(stock, snap[..|snap| - 1], dir);
    }
  }

  /** A row no item refers to keeps its quantity. */
  lemma {:induction false} ApplyWritesUntouched(stock: StockTable, snap: seq<SnapItem>, dir: Direction, k: StockId)
    requires k in stock
    requires forall j :: 0 <= j < |snap| ==> snap[j].stockId != k
    ensures k in ApplyWrites(stock, snap, dir) && ApplyWrites(stock, snap, dir)[k] == stock[k]
  {
    if snap != [] {
      ApplyWritesUntouched(stock, snap[..|snap| - 1], dir, k);
    }
  }

  /** A row the items refer to ends with the value of the LAST item that
    * refers to it: snapshot quantity plus or minus that one item's
    * quantity, whatever the items before it wrote. */
  lemma {:induction false} LastWriteWins(stock: StockTable, snap: seq<SnapItem>, dir: Direction, j: nat)
    requires j < |snap| && snap[j].stockId in stock
    requires forall l :: j < l < |snap| ==> snap[l].stockId != snap[j].stockId
    ensures snap[j].stockId in ApplyWrites(stock, snap, dir)
    ensures ApplyWrites(stock, snap, dir)[snap[j].stockId] == Written(snap[j], dir)
  {
    var k := snap[j].stockId;
    var init := snap[..|snap| - 1];
    ApplyWritesKeys(stock, init, dir);
    if j < |snap| - 1 {
      LastWriteWins(stock, init, dir, j);
    }
  }

  /** Two items of one order on the same stock row, 3 then 2 units, with 10
    * units in the snapshot: completing leaves 8, not 5. */
  lemma {:induction false} DuplicatesDoNotAccumulate(stock: StockTable, a: StockId)
    requires a in stock && stock[a] == 10
    ensures a in ApplyWrites(stock, [SnapItem(3, a, 10), SnapItem(2, a, 10)], Deduct)
    ensures ApplyWrites(stock, [SnapItem(3, a, 10), SnapItem(2, a, 10)], Deduct)[a] == 8
  {
    LastWriteWins(stock, [SnapItem(3, a, 10), SnapItem(2, a, 10)], Deduct, 1);
  }

  /** Items on two different rows, 3 units against a row of 10 and 1 unit
    * against a row of 5: completing leaves 7 and 4. */
  lemma {:induction false} CompletionOnTwoRows(stock: StockTable, a: StockId, b: StockId)
    requires a in stock && b in stock && a != b && stock[a] == 10 && stock[b] == 5
    ensures var done := ApplyWrites(stock, [SnapItem(3, a, 10), SnapItem(1, b, 5)], Deduct);
            a in done && b in done && done[a] == 7 && done[b] == 4
  {
    var snap := [SnapItem(3, a, 10), SnapItem(1, b, 5)];
    LastWriteWins(stock, snap, Deduct, 0);
    LastWriteWins(stock, snap, Deduct, 1);
  }

  /** Nothing in the writes keeps a row non-negative: completing an order
    * for more units than the snapshot holds leaves a negative quantity. */
  lemma {:induction false} StockCanGoNegative(stock: StockTable, a: StockId)
    requires a in stock
    ensures a in ApplyWrites(stock, [SnapItem(5, a, 2)], Deduct)
    ensures ApplyWrites(stock, [SnapItem(5, a, 2)], Deduct)[a] == -3
  {
    LastWriteWins(stock, [SnapItem(5, a, 2)], Deduct, 0);
  }

  /** The last item of `snap` that refers to row `k`, when there is one. */
  lemma {:induction false} LastReference(snap: seq<SnapItem>, k: StockId) returns (j: nat)
    requires exists i :: 0 <= i < |snap| && snap[i].stockId == k
    ensures j < |snap| && snap[j].stockId == k
    ensures forall l :: j < l < |snap| ==> snap[l].stockId != k
  {
    var n := |snap| - 1;
    if snap[n].stockId == k {
      j := n;
    } else {
      var i :| 0 <= i < |snap| && snap[i].stockId == k;
      assert snap[..n][i] == snap[i];
      j := LastReference(snap[..n], k);
      assert snap[..n][j] == snap[j];
      forall l | j < l < |snap| ensures snap[l].stockId != k {
        if l < n {
          assert snap[..n][l] == snap[l];
        }
      }
    }
  }

  /** Every item of `snap` read its row's quantity from `stock`. */
  predicate ReadFrom(snap: seq<SnapItem>, stock: StockTable)
  {
    forall j :: 0 <= j < |snap| ==> snap[j].stockId in stock && snap[j].stockQuantity == stock[snap[j].stockId]
  }

  /** The same items read again from `stock`. */
  function Reread(snap: seq<SnapItem>, stock: StockTable): (r: seq<SnapItem>)
    requires forall j :: 0 <= j < |snap| ==> snap[j].stockId in stock
    ensures |r| == |snap| && ReadFrom(r, stock)
    ensures forall j :: 0 <= j < |snap| ==> r[j].quantity == snap[j].quantity && r[j].stockId == snap[j].stockId
  {
    if snap == [] then []
    else
      var n := |snap| - 1;
      Reread(snap[..n], stock) + [SnapItem(snap[n].quantity, snap[n].stockId, stock[snap[n].stockId])]
  }

  /** Restocking from a snapshot read after a deduction puts every row
    * back: each row the items refer to gets the value its last item
    * took out, duplicates included, and no other row is touched. */
  lemma {:induction false} RestockUndoesDeduct(stock: StockTable, snap: seq<SnapItem>)
    requires ReadFrom(snap, stock)
    ensures var after := ApplyWrites(stock, snap, Deduct);
            && (forall j :: 0 <= j < |snap| ==> snap[j].stockId in after)
            && ApplyWrites(after, Reread(snap, after), Restock) == stock
  {
    var after := ApplyWrites(stock, snap, Deduct);
    ApplyWritesKeys(stock, snap, Deduct);
    var again := Reread(snap, after);
    var back := ApplyWrites(after, again, Restock);
    ApplyWritesKeys(after, again, Restock);
    forall k | k in stock ensures back[k] == stock[k] {
      if exists i :: 0 <= i < |snap| && snap[i].stockId == k {
        var j := LastReference(snap, k);
        LastWriteWins(stock, snap, Deduct, j);
        LastWriteWins(after, again, Restock, j);
      } else {
        ApplyWritesUntouched(stock, snap, Deduct, k);
        ApplyWritesUntouched(after, again, Restock, k);
      }
    }
  }

  /** The foreign keys an item snapshot follows: each order_item's product
    * exists and so does that product's stock row. */
  predicate Resolves(items: seq<OrderItem>, products: map<ProductId, Product>, stock: StockTable)
  {
    forall i :: 0 <= i < |items| ==>
      items[i].productId in products && products[items[i].productId].stockId in stock
  }

  /** What the `findMany` on `order_item` of one order returns, with each
    * item's product's stock row: the order's items in table order. */
  function Snapshot(items: seq<OrderItem>, products: map<ProductId, Product>, stock: StockTable, orderId: OrderId): (snap: seq<SnapItem>)
    requires Resolves(items, products, stock)
    ensures ReadFrom(snap, stock)
    ensures |snap| <= |items|
  {
    if items == [] then []
    else
      var n := |items| - 1;
      var it := items[n];
      var sid := products[it.productId].stockId;
      assert Resolves(items[..n], products, stock) by {
        forall i | 0 <= i < n ensures items[..n][i] == items[i] { }
      }
      Snapshot(items[..n], products, stock, orderId)
      + (if it.orderId == orderId then [SnapItem(it.quantity, sid, stock[sid])] else [])
  }

  /** Taking the snapshot after a write to the stock reads the same items
    * and rows, with the new quantities. */
  lemma {:induction false} SnapshotReread(items: seq<OrderItem>, products: map<ProductId, Product>,
                                          stock: StockTable, stock': StockTable, orderId: OrderId)
    requires Resolves(items, products, stock) && stock'.Keys == stock.Keys
    ensures Resolves(items, products, stock')
    ensures Snapshot(items, products, stock', orderId) == Reread(Snapshot(items, products, stock, orderId), stock')
  {
    if items != [] {
      var n := |items| - 1;
      assert Resolves(items[..n], products, stock) by {
        forall i | 0 <= i < n ensures items[..n][i] == items[i] { }
      }
      SnapshotReread(items[..n], products, stock, stock', orderId);
      var s := Snapshot(items[..n], products, stock, orderId);
      var it := items[n];
      var sid := products[it.productId].stockId;
      var tail := if it.orderId == orderId then [SnapItem(it.quantity, sid, stock[sid])] else [];
      RereadAppend(s, tail, stock');
    }
  }

  lemma {:induction false} RereadAppend(a: seq<SnapItem>, b: seq<SnapItem>, stock: StockTable)
    requires forall j :: 0 <= j < |a| ==> a[j].stockId in stock
    requires forall j :: 0 <= j < |b| ==> b[j].stockId in stock
    ensures Reread(a + b, stock) == Reread(a, stock) + Reread(b, stock)
  {
    var l, r := Reread(a + b, stock), Reread(a, stock) + Reread(b, stock);
    forall j | 0 <= j < |l| ensures l[j] == r[j] {
      if j < |a| {
        assert (a + b)[j] == a[j];
      } else {
        assert (a + b)[j] == b[j - |a|];
      }
    }
  }

  /** Cancelling an order right after completing it (each from the items
    * and the stock as they then are) leaves the stock as it was before
    * the completion. */
  lemma {:induction false} CancelRestoresCompleted(items: seq<OrderItem>, products: map<ProductId, Product>,
                                                   stock: StockTable, orderId: OrderId)
    requires Resolves(items, products, stock)
    ensures var done := ApplyWrites(stock, Snapshot(items, products, stock, orderId), Deduct);
            && Resolves(items, products, done)
            && ApplyWrites(done, Snapshot(items, products, done, orderId), Restock) == stock
  {
    var snap := Snapshot(items, products, stock, orderId);
    var done := ApplyWrites(stock, snap, Deduct);
    ApplyWritesKeys(stock, snap, Deduct);
    SnapshotReread(items, products, stock, done, orderId);
    RestockUndoesDeduct(stock, snap);
  }
}
