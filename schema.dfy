/**
 * The tables the order and product handlers use (src/server/db/schema.ts):
 * the order status enum, and the shape and references of the `order`,
 * `order_item`, `product` and `stock` rows.
 */
module Schema {
  import opened Wrappers

  /** The statuses the order handlers and the order editor use. The stored
    * enum `order_status` has only four of them: `WaitingPayment` has no
    * label there. */
  datatype Status = New | WaitingPayment | InProgress | Completed | Cancelled

  /** The label of a status in the `order_status` enum, if it has one. */
  function StatusLabel(s: Status): (r: Option<string>)
    ensures r.None? <==> s == WaitingPayment
  {
    match s
    case New => Some("new")
    case InProgress => Some("in_progress")
    case Completed => Some("completed")
    case Cancelled => Some("cancelled")
    case WaitingPayment => None
  }

  predicate InSchemaEnum(s: Status) { StatusLabel(s).Some? }

  /** Reading a stored label back. */
  function ParseStatus(text: string): Option<Status>
  {
    if text == "new" then Some(New)
    else if text == "in_progress" then Some(InProgress)
    else if text == "completed" then Some(Completed)
    else if text == "cancelled" then Some(Cancelled)
    else None
  }

  /** The stored enum holds exactly new, in_progress, completed and
    * cancelled. */
  lemma {:induction false} SchemaEnumValues(s: Status)
    ensures InSchemaEnum(s) <==> s in {New, InProgress, Completed, Cancelled}
  {
  }

  /** Labels and statuses are in one-to-one correspondence. */
  lemma {:induction false} StatusLabelRoundTrip(s: Status, text: string)
    ensures StatusLabel(s) == Some(text) ==> ParseStatus(text) == Some(s)
    ensures ParseStatus(text) == Some(s) ==> StatusLabel(s) == Some(text)
  {
  }

  /** The `order_status` enum the handlers evidently intend: the four stored
    * labels and `waiting_payment`, so that every status has a label. */
  function IntendedStatusLabel(s: Status): (r: string)
    ensures StatusLabel(s).Some? ==> r == StatusLabel(s).value
    ensures ParseIntendedStatus(r) == Some(s)
  {
    match s
    case WaitingPayment => "waiting_payment"
    case _ => StatusLabel(s).value
  }

  /** Reading back a label of the intended enum. */
  function ParseIntendedStatus(text: string): Option<Status>
  {
    if text == "waiting_payment" then Some(WaitingPayment) else ParseStatus(text)
  }

  type OrderId = string
  type ProductId = string
  type StockId = string
  type UserId = string

  /** An `order` row; `total` is a double and is only stored, never computed. */
  datatype Order = Order(total: real, status: Status, userId: Option<UserId>, modifiedById: Option<UserId>)

  /** An `order_item` row: non-null order, product and integer quantity. */
  datatype OrderItem = OrderItem(orderId: OrderId, productId: ProductId, quantity: int)

  /** A `product` row: `stockId` is non-null and references `stock`. */
  datatype Product = Product(name: string, price: real, stockId: StockId, createdById: UserId, modifiedById: Option<UserId>)

  /** The range of a PostgreSQL `integer` (int4) column, which both
    * `order_item.quantity` and `stock.quantity` are: a value outside it is
    * refused by the statement that writes it. */
  const Int4Min: int := -0x8000_0000
  const Int4Max: int := 0x7FFF_FFFF

  predicate IsInt4(x: int) { Int4Min <= x <= Int4Max }

  /** The `stock` table: a non-null integer quantity per row, with no
    * constraint that keeps it non-negative. */
  type StockTable = map<StockId, int>

  /** The references the foreign keys enforce: every product has its stock
    * row, and every order_item its order and its product. */
  predicate References(orders: map<OrderId, Order>, items: seq<OrderItem>,
                       products: map<ProductId, Product>, stock: StockTable)
  {
    && (forall p :: p in products ==> products[p].stockId in stock)
    && (forall i :: 0 <= i < |items| ==> items[i].orderId in orders && items[i].productId in products)
  }
}
