/** The navigation bar: a cart badge showing how many units the cart
    holds, and the Home and Products links highlighted by the current path. */
module Navigation {
  import opened Cart
  import JsArray
  import JsString

  const HomePath: string := "/"
  const ProductsPath: string := "/products"

  function Quantity(line: CartItem): int
  {
    line.quantity
  }

  /** `items.reduce((sum, item) => sum + item.quantity, 0)`: units, not lines. */
  function CartItemCount(items: seq<CartItem>): int
  {
    JsArray.SumOf(items, Quantity)
  }

  /** The badge is rendered when `cartItemCount > 0`. */
  predicate BadgeVisible(count: int)
  {
    count > 0
  }

  /** When every line holds at least one unit (as the store's actions keep
      it), the count is at least the number of lines, is 0 for an empty
      cart, and the badge shows exactly when the cart has a line. */
  lemma BadgeShownIffNonEmpty(items: seq<CartItem>)
    requires PositiveQuantities(items)
    ensures CartItemCount(items) >= |items|
    ensures items == [] ==> CartItemCount(items) == 0
    ensures BadgeVisible(CartItemCount(items)) <==> items != []
  {
    JsArray.SumOfAtLeast(items, Quantity, 1);
  }

  /** The badge follows an add, whether into an empty cart, onto an
      existing line or as a new line: it rises by the quantity added. */
  lemma CountAfterAdd(items: seq<CartItem>, item: ItemInfo, quantity: int)
    requires UniqueIds(items)
    ensures CartItemCount(AddedLines(items, item, quantity)) == CartItemCount(items) + quantity
  {
    if HasId(items, item.id) {
      var j :| 0 <= j < |items| && items[j].id == item.id;
      AddToExistingLine(items, item, quantity, j);
      JsArray.SumOfUpdate(items, j, items[j].(quantity := items[j].quantity + quantity), Quantity);
    } else {
      AddNewLine(items, item, quantity);
      JsArray.SumOfAppend(items, [NewLine(item, quantity)], Quantity);
      assert JsArray.SumOf([NewLine(item, quantity)], Quantity) == quantity;
    }
  }

  /** Removing a line's product lowers the badge by that line's quantity. */
  lemma CountAfterRemove(items: seq<CartItem>, k: nat)
    requires UniqueIds(items) && k < |items|
    ensures CartItemCount(RemovedLines(items, items[k].id)) == CartItemCount(items) - items[k].quantity
  {
    RemoveUniqueLine(items, items[k].id, k);
    JsArray.SumOfRemove(items, k, Quantity);
  }

  /** The Home link is active on `/` only. */
  predicate HomeActive(pathname: string)
  {
    pathname == HomePath
  }

  /** The Products link is active on any path that starts with `/products`. */
  function ProductsActive(pathname: string): bool
  {
    JsString.StartsWith(pathname, ProductsPath)
  }

  /** At most one of the two links is active; every path made of `/products`
      and any continuation activates Products (the test does not stop at a
      path segment, so `/products-sale` counts too), and no shorter path does. */
  lemma ActiveLinks(pathname: string, suffix: string)
    ensures !(HomeActive(pathname) && ProductsActive(pathname))
    ensures ProductsActive(ProductsPath + suffix)
    ensures ProductsActive(pathname) <==> |pathname| >= |ProductsPath| && pathname[..|ProductsPath|] == ProductsPath
    ensures |pathname| < |ProductsPath| ==> !ProductsActive(pathname)
  {
    assert ProductsPath <= ProductsPath + suffix;
  }
}
