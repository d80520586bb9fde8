/** The cart page: the price summary computed from the cart's lines, the
    coupon form, the minus and plus buttons of each line, and the header
    that counts the lines. Amounts are in cents; the discount is an exact
    tenth of the subtotal. */
module CartPage {
  import opened Optional
  import opened Cart
  import JsArray
  import JsString

  const FreeShippingAbove: int := 5000
  const ShippingFee: int := 999

  // ---------------------------------------------------------------- the price summary

  function LineTotal(line: CartItem): int
  {
    line.price * line.quantity
  }

  /** `cartItems.reduce((sum, item) => sum + item.price * item.quantity, 0)`. */
  function Subtotal(items: seq<CartItem>): int
  {
    JsArray.SumOf(items, LineTotal)
  }

  /** Shipping is free strictly above 5000 cents and 999 cents otherwise. */
  function Shipping(subtotal: int): (fee: int)
    ensures fee == 0 <==> subtotal > FreeShippingAbove
    ensures fee == 0 || fee == ShippingFee
  {
    if subtotal > FreeShippingAbove then 0 else ShippingFee
  }

  /** Ten per cent of the subtotal once the coupon is applied, else nothing. */
  function Discount(subtotal: int, couponApplied: bool): (d: real)
    ensures couponApplied ==> d * 10.0 == subtotal as real
    ensures !couponApplied ==> d == 0.0
  {
    if couponApplied then subtotal as real / 10.0 else 0.0
  }

  function Total(subtotal: int, couponApplied: bool): real
  {
    subtotal as real + Shipping(subtotal) as real - Discount(subtotal, couponApplied)
  }

  ghost predicate NonNegativePrices(items: seq<CartItem>)
  {
    forall k :: 0 <= k < |items| ==> items[k].price >= 0
  }

  /** With no negative prices and no negative quantities the subtotal is not
      negative; an empty cart's subtotal is 0. */
  lemma SubtotalNonNegative(items: seq<CartItem>)
    requires NonNegativePrices(items)
    requires forall k :: 0 <= k < |items| ==> items[k].quantity >= 0
    ensures Subtotal(items) >= 0
    ensures items == [] ==> Subtotal(items) == 0
  {
    forall k | 0 <= k < |items| ensures LineTotal(items[k]) >= 0 {
      assert items[k].price * items[k].quantity >= 0;
    }
    JsArray.SumOfAtLeast(items, LineTotal, 0);
  }

  /** Shipping never rises as the subtotal grows. */
  lemma ShippingNonIncreasing(low: int, high: int)
    requires low <= high
    ensures Shipping(high) <= Shipping(low)
  {
  }

  /** Every order of a non-negative subtotal costs something, and never more
      than the subtotal plus the shipping fee. */
  lemma TotalBounds(subtotal: int, couponApplied: bool)
    requires subtotal >= 0
    ensures 0.0 < Total(subtotal, couponApplied)
    ensures Total(subtotal, couponApplied) <= subtotal as real + ShippingFee as real
  {
  }

  /** Applying the coupon never raises the total, and lowers it by exactly
      a tenth of the subtotal. */
  lemma CouponNeverRaisesTotal(subtotal: int)
    requires subtotal >= 0
    ensures Total(subtotal, true) <= Total(subtotal, false)
    ensures Total(subtotal, false) - Total(subtotal, true) == subtotal as real / 10.0
  {
  }

  /** Worked figures: two units at 2000 cents pay shipping (4999 in all);
      two units at 3000 with the coupon cost 5400; exactly 5000 still pays
      shipping while one cent more does not, so the larger cart is the
      cheaper order. */
  lemma WorkedTotals()
    ensures Total(Subtotal([CartItem(1, "Mug", 2000, "", 2)]), false) == 4999.0
    ensures Total(Subtotal([CartItem(2, "Lamp", 3000, "", 2)]), true) == 5400.0
    ensures Total(5000, false) == 5999.0
    ensures Total(5001, false) == 5001.0
    ensures Total(5001, false) < Total(5000, false)
  {
    var mugs, lamps := [CartItem(1, "Mug", 2000, "", 2)], [CartItem(2, "Lamp", 3000, "", 2)];
    assert mugs[..0] == [] && lamps[..0] == [];
    assert Subtotal(mugs) == 4000;
    assert Subtotal(lamps) == 6000;
  }

  // ---------------------------------------------------------------- subtotal after a store action

  /** Adding to a line already in the cart adds that line's own price times
      the quantity; adding a new product adds its price times the quantity. */
  lemma SubtotalAfterAdd(items: seq<CartItem>, item: ItemInfo, quantity: int)
    requires UniqueIds(items)
    ensures forall k :: 0 <= k < |items| && items[k].id == item.id ==>
      Subtotal(AddedLines(items, item, quantity)) == Subtotal(items) + items[k].price * quantity
    ensures !HasId(items, item.id) ==>
      Subtotal(AddedLines(items, item, quantity)) == Subtotal(items) + item.price * quantity
  {
    forall k | 0 <= k < |items| && items[k].id == item.id
      ensures Subtotal(AddedLines(items, item, quantity)) == Subtotal(items) + items[k].price * quantity
    {
      SubtotalAfterAddToLine(items, item, quantity, k);
    }
    if !HasId(items, item.id) {
      AddNewLine(items, item, quantity);
      JsArray.SumOfAppend(items, [NewLine(item, quantity)], LineTotal);
      assert JsArray.SumOf([NewLine(item, quantity)], LineTotal) == item.price * quantity;
    }
  }

  lemma SubtotalAfterAddToLine(items: seq<CartItem>, item: ItemInfo, quantity: int, k: nat)
    requires UniqueIds(items) && k < |items| && items[k].id == item.id
    ensures Subtotal(AddedLines(items, item, quantity)) == Subtotal(items) + items[k].price * quantity
  {
    var line := items[k].(quantity := items[k].quantity + quantity);
    AddToExistingLine(items, item, quantity, k);
    JsArray.SumOfUpdate(items, k, line, LineTotal);
    LineTotalAfterAdd(items[k], quantity);
  }

  /** Raising a line's quantity raises its total by the price times the
      amount added. */
  lemma LineTotalAfterAdd(line: CartItem, quantity: int)
    ensures LineTotal(line.(quantity := line.quantity + quantity)) == LineTotal(line) + line.price * quantity
  {
    assert line.price * (line.quantity + quantity) == line.price * line.quantity + line.price * quantity;
  }

  /** Removing a product takes its line's total off the subtotal; removing
      an absent product changes nothing. */
  lemma SubtotalAfterRemove(items: seq<CartItem>, id: int)
    requires UniqueIds(items)
    ensures forall k :: 0 <= k < |items| && items[k].id == id ==>
      Subtotal(RemovedLines(items, id)) == Subtotal(items) - LineTotal(items[k])
    ensures !HasId(items, id) ==> Subtotal(RemovedLines(items, id)) == Subtotal(items)
  {
    forall k | 0 <= k < |items| && items[k].id == id
      ensures Subtotal(RemovedLines(items, id)) == Subtotal(items) - LineTotal(items[k])
    {
      RemoveUniqueLine(items, id, k);
      JsArray.SumOfRemove(items, k, LineTotal);
    }
    if !HasId(items, id) {
      RemoveAbsentIsNoOp(items, id);
    }
  }

  /** Setting a line's quantity replaces its total by the price times the
      clamped quantity. */
  lemma SubtotalAfterUpdate(items: seq<CartItem>, id: int, quantity: int)
    requires UniqueIds(items)
    ensures forall k :: 0 <= k < |items| && items[k].id == id ==>
      Subtotal(QuantityUpdated(items, id, quantity))
        == Subtotal(items) - LineTotal(items[k]) + items[k].price * JsArray.Max(1, quantity)
    ensures !HasId(items, id) ==> Subtotal(QuantityUpdated(items, id, quantity)) == Subtotal(items)
  {
    forall k | 0 <= k < |items| && items[k].id == id
      ensures Subtotal(QuantityUpdated(items, id, quantity))
        == Subtotal(items) - LineTotal(items[k]) + items[k].price * JsArray.Max(1, quantity)
    {
      UpdateUniqueLine(items, id, quantity, k);
      JsArray.SumOfUpdate(items, k, items[k].(quantity := JsArray.Max(1, quantity)), LineTotal);
    }
    if !HasId(items, id) {
      UpdateAbsentIsNoOp(items, id, quantity);
    }
  }

  // ---------------------------------------------------------------- the coupon form

  /** The coupon input's text and whether a coupon has been applied. */
  class CouponForm {
    var couponCode: string
    var isCouponApplied: bool

    constructor ()
      ensures couponCode == [] && !isCouponApplied
    {
      couponCode := [];
      isCouponApplied := false;
    }

    /** Typing in the input. */
    method ChangeCode(value: string)
      modifies this
      ensures couponCode == value && isCouponApplied == old(isCouponApplied)
    {
      couponCode := value;
    }

    /** `applyCoupon`: any code that is not blank applies the coupon, and
      nothing ever un-applies it. */
    method ApplyCoupon()
      modifies this
      ensures couponCode == old(couponCode)
      ensures isCouponApplied <==> old(isCouponApplied) || !JsString.IsBlank(couponCode)
      ensures old(isCouponApplied) ==> isCouponApplied
    {
      JsString.TrimEmptyIffBlank(couponCode);
      if JsString.Trim(couponCode) != [] {
        isCouponApplied := true;
      }
    }

    /** The Apply button is enabled exactly when the code is not blank and
      no coupon is applied yet. */
    function ApplyEnabled(): (enabled: bool)
      reads this
      ensures enabled <==> !JsString.IsBlank(couponCode) && !isCouponApplied
    {
      JsString.TrimEmptyIffBlank(couponCode);
      JsString.Trim(couponCode) != [] && !isCouponApplied
    }
  }

  /** Typing and applying in any order never turns an applied coupon off. */
  method CouponSession(form: CouponForm, codes: seq<string>, apply: seq<bool>)
    requires |apply| == |codes|
    modifies form
    ensures old(form.isCouponApplied) ==> form.isCouponApplied
  {
    var i := 0;
    while i < |codes|
      invariant 0 <= i <= |codes|
      invariant old(form.isCouponApplied) ==> form.isCouponApplied
    {
      form.ChangeCode(codes[i]);
      if apply[i] {
        form.ApplyCoupon();
      }
      i := i + 1;
    }
  }

  // ---------------------------------------------------------------- the quantity buttons

  /** The minus button of a line: `updateQuantity(id, quantity - 1)`. */
  method DecreaseQuantity(store: CartStore, line: CartItem)
    requires store.Valid()
    modifies store
    ensures store.Valid()
    ensures store.items == QuantityUpdated(old(store.items), line.id, line.quantity - 1)
  {
    store.UpdateQuantity(line.id, line.quantity - 1);
  }

  /** The plus button of a line: `updateQuantity(id, quantity + 1)`. */
  method IncreaseQuantity(store: CartStore, line: CartItem)
    requires store.Valid()
    modifies store
    ensures store.Valid()
    ensures store.items == QuantityUpdated(old(store.items), line.id, line.quantity + 1)
  {
    store.UpdateQuantity(line.id, line.quantity + 1);
  }

  /** On a line of quantity at least 1, minus lowers it by one but never
      below 1 (at 1 it leaves the cart as it was), plus raises it by one,
      and every quantity in the cart stays at 1 or more. */
  lemma QuantityButtons(items: seq<CartItem>, k: nat)
    requires UniqueIds(items) && PositiveQuantities(items) && k < |items|
    ensures var line := items[k];
      && QuantityUpdated(items, line.id, line.quantity - 1)[k].quantity == JsArray.Max(1, line.quantity - 1)
      && (line.quantity == 1 ==> QuantityUpdated(items, line.id, line.quantity - 1) == items)
      && QuantityUpdated(items, line.id, line.quantity + 1)[k].quantity == line.quantity + 1
      && PositiveQuantities(QuantityUpdated(items, line.id, line.quantity - 1))
      && PositiveQuantities(QuantityUpdated(items, line.id, line.quantity + 1))
  {
    var line := items[k];
    UpdateUniqueLine(items, line.id, line.quantity - 1, k);
    UpdateUniqueLine(items, line.id, line.quantity + 1, k);
    if line.quantity == 1 {
      assert items[k := items[k].(quantity := 1)] == items;
    }
  }

  // ---------------------------------------------------------------- the header

  /** The line under "Shopping Cart", `${n} item${n !== 1 ? 's' : ''} in
      your cart`, counting lines. Only a non-empty cart has it: an empty
      cart renders the "Your cart is empty" branch instead (`None`). */
  function HeaderText(items: seq<CartItem>): Option<string>
  {
    if items == [] then None
    else Some(JsString.DecimalString(|items|) + " item" + (if |items| != 1 then "s" else "") + " in your cart")
  }

  /** The count line is there exactly when the cart has a line, and it uses
      the singular exactly for a single line, whatever its quantity. */
  lemma {:induction false} HeaderCountsLines(items: seq<CartItem>)
    ensures HeaderText(items) == None <==> items == []
    ensures |items| == 1 ==> HeaderText(items) == Some("1 item in your cart")
    ensures |items| > 1 ==> HeaderText(items) == Some(JsString.DecimalString(|items|) + " items in your cart")
  {
    var digits := JsString.DecimalString(|items|);
    if |items| == 1 {
      assert digits == [JsString.DigitChar(1)] == "1";
      assert digits + " item" + "" + " in your cart" == "1 item in your cart";
    } else if |items| > 1 {
      assert digits + " item" + "s" + " in your cart" == digits + " items in your cart";
    }
  }

  /** The number the count line starts with is the number of lines, not of
      units: `parseInt` reads it back as `cartItems.length`. */
  lemma HeaderNumberIsLineCount(items: seq<CartItem>)
    requires items != []
    ensures JsString.ParseInt(HeaderText(items).value) == Some(|items|)
  {
    var rest := " item" + (if |items| != 1 then "s" else "") + " in your cart";
    assert HeaderText(items).value == JsString.DecimalString(|items|) + rest;
    JsString.ParseIntLeadingNumber(|items|, rest);
  }
}
