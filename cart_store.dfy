/** The client-side cart store: one mutable list of cart lines, replaced as a
    whole by each of four actions (`addToCart`, `removeFromCart`,
    `updateQuantity`, `clearCart`). The new list each action computes is a
    function below; `CartStore` is the store object whose methods install it. */
module Cart {
  import opened Optional
  import JsArray

  /** A cart line: a snapshot of the product's display fields taken when it
      was added, plus how many of it are in the cart. Prices are in cents. */
  datatype CartItem = CartItem(id: int, name: string, price: int, image: string, quantity: int)

  /** What `addToCart` receives: a cart line without its quantity. */
  datatype ItemInfo = ItemInfo(id: int, name: string, price: int, image: string)

  /** `{ ...item, quantity }`. */
  function NewLine(item: ItemInfo, quantity: int): CartItem
  {
    CartItem(item.id, item.name, item.price, item.image, quantity)
  }

  ghost predicate HasId(items: seq<CartItem>, id: int)
  {
    exists k :: 0 <= k < |items| && items[k].id == id
  }

  /** The store's invariant: at most one line per product id. */
  ghost predicate UniqueIds(items: seq<CartItem>)
  {
    forall i, j :: 0 <= i < j < |items| ==> items[i].id != items[j].id
  }

  ghost predicate PositiveQuantities(items: seq<CartItem>)
  {
    forall k :: 0 <= k < |items| ==> items[k].quantity >= 1
  }

  // ---------------------------------------------------------------- list helpers

  /** `items.find(i => i.id === id)`: a line with that id, if there is one. */
  function FindLine(items: seq<CartItem>, id: int): (r: Option<CartItem>)
    ensures r.Some? ==> r.value in items && r.value.id == id
    ensures r.None? <==> !HasId(items, id)
  {
    if items == [] then None
    else if items[0].id == id then Some(items[0])
    else
      var rest := FindLine(items[1..], id);
      assert forall k :: 0 < k < |items| ==> items[k] == items[1..][k - 1];
      rest
  }

  /** `items.map(i => i.id === id ? { ...i, quantity: newQuantity(i.quantity) } : i)`. */
  function WithQuantity(items: seq<CartItem>, id: int, newQuantity: int -> int): (r: seq<CartItem>)
    ensures |r| == |items|
    ensures forall k :: 0 <= k < |items| ==>
      r[k] == if items[k].id == id then items[k].(quantity := newQuantity(items[k].quantity)) else items[k]
  {
    if items == [] then []
    else
      var first := items[0];
      var line := if first.id == id then first.(quantity := newQuantity(first.quantity)) else first;
      [line] + WithQuantity(items[1..], id, newQuantity)
  }

  /** The test `removeFromCart` filters with: keep lines of other products. */
  function OtherProduct(id: int): CartItem -> bool
  {
    (i: CartItem) => i.id != id
  }

  // ---------------------------------------------------------------- the four actions

  /** The list after `addToCart(item, quantity)`. */
  function AddedLines(items: seq<CartItem>, item: ItemInfo, quantity: int): seq<CartItem>
  {
    if FindLine(items, item.id).Some? then WithQuantity(items, item.id, q => q + quantity)
    else items + [NewLine(item, quantity)]
  }

  /** The list after `removeFromCart(id)`. */
  function RemovedLines(items: seq<CartItem>, id: int): seq<CartItem>
  {
    JsArray.Filter(items, OtherProduct(id))
  }

  /** The list after `updateQuantity(id, quantity)`. */
  function QuantityUpdated(items: seq<CartItem>, id: int, quantity: int): seq<CartItem>
  {
    WithQuantity(items, id, _ => JsArray.Max(1, quantity))
  }

  // ---------------------------------------------------------------- addToCart

  /** Adding a product already in the cart raises that line's quantity and
      touches nothing else: same length, same order, the line keeps its own
      name, price and image. */
  lemma AddToExistingLine(items: seq<CartItem>, item: ItemInfo, quantity: int, k: nat)
    requires UniqueIds(items) && k < |items| && items[k].id == item.id
    ensures AddedLines(items, item, quantity)
         == items[k := items[k].(quantity := items[k].quantity + quantity)]
  {
    assert HasId(items, item.id);
    var r := AddedLines(items, item, quantity);
    var expected := items[k := items[k].(quantity := items[k].quantity + quantity)];
    forall j | 0 <= j < |items| ensures r[j] == expected[j] {
      if j != k {
        assert items[j].id != item.id;
      }
    }
  }

  /** Adding a product not yet in the cart appends exactly one new line. */
  lemma AddNewLine(items: seq<CartItem>, item: ItemInfo, quantity: int)
    requires !HasId(items, item.id)
    ensures AddedLines(items, item, quantity) == items + [NewLine(item, quantity)]
  {
  }

  /** `addToCart` keeps at most one line per id. */
  lemma AddKeepsUniqueIds(items: seq<CartItem>, item: ItemInfo, quantity: int)
    requires UniqueIds(items)
    ensures UniqueIds(AddedLines(items, item, quantity))
    ensures HasId(AddedLines(items, item, quantity), item.id)
  {
    var r := AddedLines(items, item, quantity);
    if !HasId(items, item.id) {
      assert r[|items|].id == item.id;
    } else {
      var k :| 0 <= k < |items| && items[k].id == item.id;
      assert r[k].id == item.id;
    }
  }

  // ---------------------------------------------------------------- removeFromCart

  /** `removeFromCart` leaves exactly the lines of other products, each as
      often as before, and keeps the store's invariant. */
  lemma RemoveKeepsOtherLines(items: seq<CartItem>, id: int)
    ensures forall x :: x in RemovedLines(items, id) <==> x in items && x.id != id
    ensures forall x: CartItem :: x.id != id ==> multiset(RemovedLines(items, id))[x] == multiset(items)[x]
    ensures !HasId(RemovedLines(items, id), id)
  {
  }

  /** On a cart with one line per id, removing a present id cuts out exactly
      that line and keeps the order of the rest. */
  lemma RemoveUniqueLine(items: seq<CartItem>, id: int, k: nat)
    requires UniqueIds(items) && k < |items| && items[k].id == id
    ensures RemovedLines(items, id) == items[..k] + items[k + 1..]
  {
    JsArray.FilterDropsOne(items, OtherProduct(id), k);
  }

  /** Removing an id that is not in the cart changes nothing. */
  lemma RemoveAbsentIsNoOp(items: seq<CartItem>, id: int)
    requires !HasId(items, id)
    ensures RemovedLines(items, id) == items
  {
    JsArray.FilterKeepsAll(items, OtherProduct(id));
  }

  /** Removing the same id twice is the same as removing it once. */
  lemma RemoveIdempotent(items: seq<CartItem>, id: int)
    ensures RemovedLines(RemovedLines(items, id), id) == RemovedLines(items, id)
  {
    JsArray.FilterIdempotent(items, OtherProduct(id));
  }

  lemma {:induction false} RemoveKeepsUniqueIds(items: seq<CartItem>, id: int)
    requires UniqueIds(items)
    ensures UniqueIds(RemovedLines(items, id))
  {
    if items != [] {
      var first, rest := items[0], items[1..];
      RemoveKeepsUniqueIds(rest, id);
      var tail := RemovedLines(rest, id);
      if first.id != id {
        assert OtherProduct(id)(first);
        assert RemovedLines(items, id) == [first] + tail;
        forall y | y in tail ensures y.id != first.id {
          LaterLineId(items, y);
        }
        UniqueIdsCons(first, tail);
      }
    }
  }

  lemma UniqueIdsCons(first: CartItem, tail: seq<CartItem>)
    requires UniqueIds(tail)
    requires forall y :: y in tail ==> y.id != first.id
    ensures UniqueIds([first] + tail)
  {
    var r := [first] + tail;
    forall i, j | 0 <= i < j < |r| ensures r[i].id != r[j].id {
      assert r[j] == tail[j - 1];
      if i > 0 {
        assert r[i] == tail[i - 1];
      } else {
        assert tail[j - 1] in tail;
      }
    }
  }

  lemma LaterLineId(items: seq<CartItem>, y: CartItem)
    requires UniqueIds(items) && items != [] && y in items[1..]
    ensures y.id != items[0].id
  {
    var j :| 0 <= j < |items[1..]| && items[1..][j] == y;
    assert items[j + 1] == y;
  }

  // ---------------------------------------------------------------- updateQuantity

  /** On a cart with one line per id, `updateQuantity` sets that one line's
      quantity to `max(1, quantity)` and changes nothing else. */
  lemma UpdateUniqueLine(items: seq<CartItem>, id: int, quantity: int, k: nat)
    requires UniqueIds(items) && k < |items| && items[k].id == id
    ensures QuantityUpdated(items, id, quantity)
         == items[k := items[k].(quantity := JsArray.Max(1, quantity))]
  {
    var r := QuantityUpdated(items, id, quantity);
    var expected := items[k := items[k].(quantity := JsArray.Max(1, quantity))];
    forall j | 0 <= j < |items| ensures r[j] == expected[j] {
      if j != k {
        assert items[j].id != id;
      }
    }
  }

  /** Updating an id that is not in the cart changes nothing. */
  lemma UpdateAbsentIsNoOp(items: seq<CartItem>, id: int, quantity: int)
    requires !HasId(items, id)
    ensures QuantityUpdated(items, id, quantity) == items
  {
    var r := QuantityUpdated(items, id, quantity);
    forall j | 0 <= j < |items| ensures r[j] == items[j] {
      assert items[j].id != id;
    }
  }

  /** `updateQuantity` keeps every id where it was, so the invariant holds,
      and never leaves the updated line below 1. */
  lemma UpdateKeepsIdsAndClamps(items: seq<CartItem>, id: int, quantity: int)
    ensures UniqueIds(items) ==> UniqueIds(QuantityUpdated(items, id, quantity))
    ensures forall k :: 0 <= k < |items| && items[k].id == id ==>
      QuantityUpdated(items, id, quantity)[k].quantity >= 1
    ensures QuantityUpdated(QuantityUpdated(items, id, quantity), id, quantity)
         == QuantityUpdated(items, id, quantity)
  {
    var r := QuantityUpdated(items, id, quantity);
    var rr := QuantityUpdated(r, id, quantity);
    assert forall k :: 0 <= k < |items| ==> r[k].id == items[k].id;
    forall k | 0 <= k < |items| ensures rr[k] == r[k] { }
  }

  /** Adding with positive quantities, removing and updating keep every
      quantity in the cart at 1 or more. */
  lemma ActionsKeepQuantitiesPositive(items: seq<CartItem>, item: ItemInfo, quantity: int, id: int, newQuantity: int)
    requires PositiveQuantities(items) && quantity >= 1
    ensures PositiveQuantities(AddedLines(items, item, quantity))
    ensures PositiveQuantities(RemovedLines(items, id))
    ensures PositiveQuantities(QuantityUpdated(items, id, newQuantity))
  {
    var r := RemovedLines(items, id);
    forall k | 0 <= k < |r| ensures r[k].quantity >= 1 {
      assert r[k] in r;
    }
  }

  // ---------------------------------------------------------------- repeated adds

  /** The quantity on the line for `id`, or 0 when there is none. */
  function LineQuantity(items: seq<CartItem>, id: int): int
  {
    match FindLine(items, id)
    case Some(line) => line.quantity
    case None => 0
  }

  lemma LineQuantityAt(items: seq<CartItem>, id: int, k: nat)
    requires UniqueIds(items) && k < |items| && items[k].id == id
    ensures LineQuantity(items, id) == items[k].quantity
  {
    var line := FindLine(items, id).value;
    var j :| 0 <= j < |items| && items[j] == line;
    assert j == k;
  }

  /** On a cart with one line per id, one `addToCart` adds its quantity to
      the product's line quantity (counting an absent line as 0). */
  lemma AddRaisesLineQuantity(items: seq<CartItem>, item: ItemInfo, quantity: int)
    requires UniqueIds(items)
    ensures LineQuantity(AddedLines(items, item, quantity), item.id)
         == LineQuantity(items, item.id) + quantity
  {
    var r := AddedLines(items, item, quantity);
    AddKeepsUniqueIds(items, item, quantity);
    if HasId(items, item.id) {
      var k :| 0 <= k < |items| && items[k].id == item.id;
      AddToExistingLine(items, item, quantity, k);
      LineQuantityAt(items, item.id, k);
      LineQuantityAt(r, item.id, k);
    } else {
      LineQuantityAt(r, item.id, |items|);
    }
  }

  function SumOfInts(qs: seq<int>): int
  {
    JsArray.SumOf(qs, q => q)
  }

  /** `addToCart(item, qs[0])`, then `addToCart(item, qs[1])`, and so on. */
  function AddedRepeatedly(items: seq<CartItem>, item: ItemInfo, qs: seq<int>): seq<CartItem>
  {
    if qs == [] then items
    else AddedLines(AddedRepeatedly(items, item, qs[..|qs| - 1]), item, qs[|qs| - 1])
  }

  /** Any run of `addToCart` calls for one product leaves exactly one line
      for it, whose quantity grew by the sum of the quantities passed. */
  lemma {:induction false} RepeatedAddsMerge(items: seq<CartItem>, item: ItemInfo, qs: seq<int>)
    requires UniqueIds(items)
    ensures UniqueIds(AddedRepeatedly(items, item, qs))
    ensures qs != [] ==> HasId(AddedRepeatedly(items, item, qs), item.id)
    ensures LineQuantity(AddedRepeatedly(items, item, qs), item.id)
         == LineQuantity(items, item.id) + SumOfInts(qs)
  {
    if qs != [] {
      var before := AddedRepeatedly(items, item, qs[..|qs| - 1]);
      RepeatedAddsMerge(items, item, qs[..|qs| - 1]);
      AddKeepsUniqueIds(before, item, qs[|qs| - 1]);
      AddRaisesLineQuantity(before, item, qs[|qs| - 1]);
    }
  }

  // ---------------------------------------------------------------- the store

  /** The store object: its one field `items` is replaced by each action. */
  class CartStore {
    var items: seq<CartItem>

    ghost predicate Valid()
      reads this
    {
      UniqueIds(items)
    }

    /** The store starts with an empty cart. */
    constructor ()
      ensures Valid() && items == []
    {
      items := [];
    }

    /** `addToCart(item, quantity = 1)`. */
    method AddToCart(item: ItemInfo, quantity: int := 1)
      requires Valid()
      modifies this
      ensures Valid() && items == AddedLines(old(items), item, quantity)
    {
      AddKeepsUniqueIds(items, item, quantity);
      if FindLine(items, item.id).Some? {
        items := WithQuantity(items, item.id, q => q + quantity);
      } else {
        items := items + [NewLine(item, quantity)];
      }
    }

    /** `removeFromCart(id)`. */
    method RemoveFromCart(id: int)
      requires Valid()
      modifies this
      ensures Valid() && items == RemovedLines(old(items), id)
    {
      RemoveKeepsUniqueIds(items, id);
      items := JsArray.Filter(items, OtherProduct(id));
    }

    /** `updateQuantity(id, quantity)`. */
    method UpdateQuantity(id: int, quantity: int)
      requires Valid()
      modifies this
      ensures Valid() && items == QuantityUpdated(old(items), id, quantity)
    {
      UpdateKeepsIdsAndClamps(items, id, quantity);
      items := QuantityUpdated(items, id, quantity);
    }

    /** `clearCart()`: empty, whatever was there. */
    method ClearCart()
      requires Valid()
      modifies this
      ensures Valid() && items == []
    {
      items := [];
    }
  }
}
