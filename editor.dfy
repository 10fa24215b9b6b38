/**
 * The item list of the order editor
 * (src/app/dashboard/orders/_components/order-modal.tsx): the transforms
 * its buttons and inputs apply to the list held in component state, the
 * products each row's selector offers, and when the submit button is
 * disabled. The state setters are left implicit: each transform returns
 * the new list.
 */
module OrderEditor {
  import opened Wrappers
  import opened Schema
  import Store

  /** A row of the editor; an empty `productId` is a row whose product is
    * not chosen yet. */
  datatype Item = Item(productId: string, quantity: int)

  /** `addItem`: a blank row at the end. */
  function AddItem(items: seq<Item>): (r: seq<Item>)
    ensures |r| == |items| + 1
    ensures r[..|items|] == items && r[|items|] == Item("", 1)
  {
    items + [Item("", 1)]
  }

  /** `items.filter((_, i) => i !== index)`. */
  function WithoutIndex(items: seq<Item>, index: int): (r: seq<Item>)
    ensures 0 <= index < |items| ==> r == items[..index] + items[index + 1..]
    ensures !(0 <= index < |items|) ==> r == items
  {
    if items == [] then []
    else
      var n := |items| - 1;
      WithoutIndex(items[..n], index) + (if n == index then [] else [items[n]])
  }

  /** Rows may be removed while there is no order yet or while the order
    * being edited is in progress. */
  predicate CanRemove(order: Option<Status>)
  {
    order.None? || order.value == InProgress
  }

  /** `removeItem(index)`: row `index` goes, when rows may be removed. */
  function RemoveItem(items: seq<Item>, index: int, order: Option<Status>): (r: seq<Item>)
    ensures CanRemove(order) && 0 <= index < |items| ==> r == items[..index] + items[index + 1..]
    ensures CanRemove(order) && !(0 <= index < |items|) ==> r == items
    ensures !CanRemove(order) ==> r == items
  {
    if CanRemove(order) then WithoutIndex(items, index) else items
  }

  /** `updateItem(index, 'productId', value)`: the row gets the product and
    * its quantity goes back to 1. */
  function SetProduct(items: seq<Item>, index: nat, value: string): (r: seq<Item>)
    requires index < |items|
    ensures |r| == |items| && r[index] == Item(value, 1)
    ensures forall j :: 0 <= j < |items| && j != index ==> r[j] == items[j]
  {
    items[index := items[index].(productId := value, quantity := 1)]
  }

  /** `updateItem(index, 'quantity', value)`: the row keeps its product. */
  function SetQuantity(items: seq<Item>, index: nat, value: int): (r: seq<Item>)
    requires index < |items|
    ensures |r| == |items| && r[index] == Item(items[index].productId, value)
    ensures forall j :: 0 <= j < |items| && j != index ==> r[j] == items[j]
  {
    items[index := items[index].(quantity := value)]
  }

  /** The quantity input hands `updateItem` at least 1:
    * `Math.max(1, Number.parseInt(...))`. */
  function Clamp(parsed: int): (q: int)
    ensures q >= 1 && (parsed >= 1 ==> q == parsed)
  {
    if parsed >= 1 then parsed else 1
  }

  /** Whether some row uses product `p`. */
  predicate Used(items: seq<Item>, p: string)
  {
    exists j :: 0 <= j < |items| && items[j].productId == p
  }

  /** `availableProducts` for the row `row`: the products no row uses, and
    * the row's own product. */
  function Available(products: seq<string>, items: seq<Item>, row: Item): (r: seq<string>)
    ensures forall p :: p in r <==> p in products && (!Used(items, p) || row.productId == p)
    ensures |r| <= |products|
  {
    if products == [] then []
    else
      var n := |products| - 1;
      var p := products[n];
      Available(products[..n], items, row) + (if !Used(items, p) || row.productId == p then [p] else [])
  }

  /** The `disabled` expression of the submit button. */
  predicate SubmitDisabled(isSubmitting: bool, items: seq<Item>, hasClient: bool)
  {
    isSubmitting || |items| == 0 || (exists j :: 0 <= j < |items| && |items[j].productId| == 0) || !hasClient
  }

  /** The status and the list the editor opens with: those of the order
    * being edited, or In progress and no rows for a new order. */
  function Initial(order: Option<(Status, seq<Item>)>): (r: (Status, seq<Item>))
    ensures order.None? ==> r == (InProgress, [])
    ensures order.Some? ==> r == order.value
  {
    match order
    case None => (InProgress, [])
    case Some((status, items)) => (status, items)
  }

  /** Every row holds a quantity of at least 1. */
  predicate Positive(items: seq<Item>)
  {
    forall j :: 0 <= j < |items| ==> items[j].quantity >= 1
  }

  /** The editor's transforms keep every quantity at least 1, given the
    * clamped value the quantity input passes. */
  lemma {:induction false} EditsKeepPositive(items: seq<Item>, index: nat, value: string, parsed: int, order: Option<Status>)
    requires Positive(items)
    ensures Positive(AddItem(items))
    ensures Positive(RemoveItem(items, index, order))
    ensures index < |items| ==> Positive(SetProduct(items, index, value))
    ensures index < |items| ==> Positive(SetQuantity(items, index, Clamp(parsed)))
  {
    var r := RemoveItem(items, index, order);
    if CanRemove(order) && index < |items| {
      forall j | 0 <= j < |r| ensures r[j].quantity >= 1 {
        if j < index {
          assert r[j] == items[j];
        } else {
          assert r[j] == items[j + 1];
        }
      }
    }
  }

  /** The product of each row, as the create and update handlers take it. */
  function ToInput(items: seq<Item>): (xs: seq<Store.NewItem>)
    ensures |xs| == |items|
    ensures forall j :: 0 <= j < |items| ==> xs[j] == Store.NewItem(items[j].productId, items[j].quantity)
  {
    if items == [] then []
    else
      var n := |items| - 1;
      ToInput(items[..n]) + [Store.NewItem(items[n].productId, items[n].quantity)]
  }

  /** When the submit button is enabled, the list is not empty, every row
    * names a product, and (rows having been built by the editor's own
    * transforms) every quantity passes the handlers' `min(1)` check. */
  lemma {:induction false} EnabledSubmitIsValid(isSubmitting: bool, items: seq<Item>, hasClient: bool)
    requires !SubmitDisabled(isSubmitting, items, hasClient) && Positive(items)
    ensures |items| > 0 && hasClient
    ensures forall j :: 0 <= j < |items| ==> items[j].productId != ""
    ensures Store.QuantitiesValid(ToInput(items))
  {
    var xs := ToInput(items);
    forall j | 0 <= j < |xs| ensures xs[j].quantity >= 1 {
      assert xs[j].quantity == items[j].quantity;
    }
  }

  /** A product a row may pick never duplicates another row's product. */
  lemma {:induction false} PickedProductsStayDistinct(products: seq<string>, items: seq<Item>, index: nat, p: string)
    requires index < |items| && p in Available(products, items, items[index])
    requires forall i, j :: 0 <= i < j < |items| && items[i].productId != "" ==> items[i].productId != items[j].productId
    ensures var r := SetProduct(items, index, p);
            forall i, j :: 0 <= i < j < |r| && r[i].productId != "" ==> r[i].productId != r[j].productId
  {
    var r := SetProduct(items, index, p);
    forall i, j | 0 <= i < j < |r| && r[i].productId != "" ensures r[i].productId != r[j].productId {
      if i == index {
        assert r[j] == items[j];
        if p != items[index].productId {
          assert !Used(items, p);
        }
      } else if j == index {
        assert r[i] == items[i];
        if p != items[index].productId {
          assert !Used(items, p);
        }
      } else {
        assert r[i] == items[i] && r[j] == items[j];
      }
    }
  }
}
