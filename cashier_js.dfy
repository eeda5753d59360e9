/** The cashier page's cart (frontend/js/cashier.js): the `currentOrder` array of
    cart lines that the page changes in place, the state of the submit button, the
    request body sent on submit, and the Russian plural forms of its captions. */
module CashierJs {
  import opened Seqs
  import opened Store

  /** A cart line: the dish, the name and price its card showed, the quantity and the line total. */
  datatype CartLine = CartLine(dishId: Id, name: string, price: Money, quantity: int, total: Money)

  /** One entry of the body of POST /api/cashier/order. */
  datatype PayloadLine = PayloadLine(dishId: Id, quantity: int)

  function LineTotal(l: CartLine): int { l.total }

  function LineDish(l: CartLine): Id { l.dishId }

  function PayloadDish(l: PayloadLine): Id { l.dishId }

  function HasDish(dishId: Id): CartLine -> bool {
    (l: CartLine) => l.dishId == dishId
  }

  /** No dish has two lines. */
  predicate UniqueDishes(lines: seq<CartLine>) {
    DistinctBy(lines, LineDish)
  }

  /** Every line total is the line's price times its quantity. */
  predicate Priced(lines: seq<CartLine>) {
    forall i :: 0 <= i < |lines| ==> lines[i].total == lines[i].price * lines[i].quantity
  }

  // ------------------------------------------------------------ cart changes

  /** The cart after `addToOrder(dishId, name, price)` (lines 89-104): the line of the
      dish, if there is one, gets one more unit and a total of its new quantity times
      the price passed in; otherwise a line of one unit is appended. */
  function Added(lines: seq<CartLine>, dishId: Id, name: string, price: Money): (r: seq<CartLine>)
    ensures Find(lines, HasDish(dishId)).Some? ==>
      var i := Find(lines, HasDish(dishId)).value;
      && |r| == |lines| && r[i] == OneMore(lines[i], price) && r[i].dishId == dishId
      && forall j :: 0 <= j < |lines| && j != i ==> r[j] == lines[j]
    ensures Find(lines, HasDish(dishId)).None? ==> r == lines + [CartLine(dishId, name, price, 1, price)]
  {
    match Find(lines, HasDish(dishId))
    case Some(i) => lines[i := OneMore(lines[i], price)]
    case None => lines + [CartLine(dishId, name, price, 1, price)]
  }

  /** The line with one more unit and a total of its new quantity times the price
      passed in; its own price and name stay. */
  function OneMore(line: CartLine, price: Money): (r: CartLine)
    ensures r.quantity == line.quantity + 1 && r.total == r.quantity * price
    ensures r.dishId == line.dishId && r.name == line.name && r.price == line.price
  {
    line.(quantity := line.quantity + 1, total := (line.quantity + 1) * price)
  }

  /** Adding keeps one line per dish, and afterwards the dish has a line. */
  lemma AddedKeepsDishesUnique(lines: seq<CartLine>, dishId: Id, name: string, price: Money)
    requires UniqueDishes(lines)
    ensures UniqueDishes(Added(lines, dishId, name, price))
    ensures exists i :: 0 <= i < |Added(lines, dishId, name, price)| && Added(lines, dishId, name, price)[i].dishId == dishId
  {
    var r := Added(lines, dishId, name, price);
    match Find(lines, HasDish(dishId))
    case Some(i) =>
      assert r[i].dishId == dishId;
      forall a, b | 0 <= a < b < |r|
        ensures LineDish(r[a]) != LineDish(r[b])
      {
        assert LineDish(r[a]) == LineDish(lines[a]) && LineDish(r[b]) == LineDish(lines[b]);
      }
    case None =>
      forall j | 0 <= j < |lines|
        ensures LineDish(lines[j]) != LineDish(CartLine(dishId, name, price, 1, price))
      {
        assert !HasDish(dishId)(lines[j]);
      }
      AppendDistinctBy(lines, CartLine(dishId, name, price, 1, price), LineDish);
      assert r[|lines|].dishId == dishId;
  }

  /** Adding a dish at the price its line already has keeps every total equal to
      price times quantity. */
  lemma AddedStaysPriced(lines: seq<CartLine>, dishId: Id, name: string, price: Money)
    requires Priced(lines)
    requires forall j :: 0 <= j < |lines| && lines[j].dishId == dishId ==> lines[j].price == price
    ensures Priced(Added(lines, dishId, name, price))
  {
    var r := Added(lines, dishId, name, price);
    match Find(lines, HasDish(dishId))
    case Some(i) =>
      assert HasDish(dishId)(lines[i]);
      assert r[i].total == r[i].price * r[i].quantity by {
        assert r[i].price == price;
      }
      forall j | 0 <= j < |r|
        ensures r[j].total == r[j].price * r[j].quantity
      {
        if j != i {
          assert r[j] == lines[j];
        }
      }
    case None =>
  }

  /** Adding a dish at the price its line already has raises the cart total by that price. */
  lemma AddedRaisesTotal(lines: seq<CartLine>, dishId: Id, name: string, price: Money)
    requires Priced(lines)
    requires forall j :: 0 <= j < |lines| && lines[j].dishId == dishId ==> lines[j].price == price
    ensures Sum(Added(lines, dishId, name, price), LineTotal) == Sum(lines, LineTotal) + price
  {
    match Find(lines, HasDish(dishId))
    case Some(i) =>
      assert HasDish(dishId)(lines[i]);
      AddedToLine(lines, dishId, name, price, i);
    case None =>
      SumLast(lines, CartLine(dishId, name, price, 1, price), LineTotal);
  }

  /** Adding a dish that has a line priced at the price passed in raises the total by that price. */
  lemma AddedToLine(lines: seq<CartLine>, dishId: Id, name: string, price: Money, i: nat)
    requires Find(lines, HasDish(dishId)) == Some(i)
    requires lines[i].total == price * lines[i].quantity
    ensures Sum(Added(lines, dishId, name, price), LineTotal) == Sum(lines, LineTotal) + price
  {
    assert Added(lines, dishId, name, price) == lines[i := OneMore(lines[i], price)];
    OneMoreUnitRaisesTotal(lines, i, price);
  }

  /** One more unit of a line whose total is its price times its quantity raises the cart total by the price. */
  lemma OneMoreUnitRaisesTotal(lines: seq<CartLine>, i: nat, price: Money)
    requires i < |lines| && lines[i].total == price * lines[i].quantity
    ensures Sum(lines[i := OneMore(lines[i], price)], LineTotal) == Sum(lines, LineTotal) + price
  {
    SumUpdate(lines, i, OneMore(lines[i], price));
  }

  /** Replacing the i-th line changes the cart total by the difference of the two line totals. */
  lemma {:induction false} SumUpdate(lines: seq<CartLine>, i: nat, x: CartLine)
    requires i < |lines|
    ensures Sum(lines[i := x], LineTotal) == Sum(lines, LineTotal) - lines[i].total + x.total
    decreases |lines|
  {
    var n := |lines| - 1;
    if i < n {
      SumUpdate(lines[..n], i, x);
      assert lines[i := x][..n] == lines[..n][i := x];
    } else {
      assert lines[i := x][..n] == lines[..n];
    }
  }

  /** The cart after `currentOrder.splice(index, 1)`: a negative index counts from
      the end (clamped to the first line), and an index past the end removes nothing. */
  function RemovedAt(lines: seq<CartLine>, index: int): (r: seq<CartLine>)
    ensures 0 <= index < |lines| ==>
      && |r| == |lines| - 1
      && (forall j :: 0 <= j < index ==> r[j] == lines[j])
      && (forall j :: index <= j < |r| ==> r[j] == lines[j + 1])
    ensures index >= |lines| ==> r == lines
  {
    var start := if index < 0 then Max(|lines| + index, 0) else index;
    if start < |lines| then lines[..start] + lines[start + 1..] else lines
  }

  /** A negative index counts from the end of the cart, and one reaching before its
      start removes the first line. */
  lemma RemovedAtNegative(lines: seq<CartLine>, index: int)
    requires index < 0 && lines != []
    ensures RemovedAt(lines, index) == RemovedAt(lines, Max(|lines| + index, 0))
  {
  }

  /** Removing a line keeps the others, as a multiset. */
  lemma RemovedAtKeepsOthers(lines: seq<CartLine>, index: nat)
    requires index < |lines|
    ensures multiset(RemovedAt(lines, index)) + multiset{lines[index]} == multiset(lines)
  {
    assert lines == lines[..index] + [lines[index]] + lines[index + 1..];
  }

  /** Removing a line takes its total off the cart total. */
  lemma RemovedAtTotal(lines: seq<CartLine>, index: nat)
    requires index < |lines|
    ensures Sum(RemovedAt(lines, index), LineTotal) == Sum(lines, LineTotal) - lines[index].total
  {
    var front, back := lines[..index], lines[index + 1..];
    SplitAt(lines, index);
    assert RemovedAt(lines, index) == front + back;
    SumAppend(front + [lines[index]], back, LineTotal);
    SumAppend(front, back, LineTotal);
    SumLast(front, lines[index], LineTotal);
  }

  /** Removing a line keeps the lines unique and priced. */
  lemma RemovedAtKeepsInvariants(lines: seq<CartLine>, index: nat)
    requires index < |lines|
    ensures UniqueDishes(lines) ==> UniqueDishes(RemovedAt(lines, index))
    ensures Priced(lines) ==> Priced(RemovedAt(lines, index))
  {
    var r := RemovedAt(lines, index);
    if UniqueDishes(lines) {
      forall a, b | 0 <= a < b < |r|
        ensures LineDish(r[a]) != LineDish(r[b])
      {
        var a', b' := if a < index then a else a + 1, if b < index then b else b + 1;
        assert r[a] == lines[a'] && r[b] == lines[b'];
      }
    }
    if Priced(lines) {
      forall j | 0 <= j < |r|
        ensures r[j].total == r[j].price * r[j].quantity
      {
        assert r[j] == lines[if j < index then j else j + 1];
      }
    }
  }

  /** The cart after `changeQuantity(index, delta)` (lines 154-164): the line is removed
      when its quantity would drop below 1, and otherwise gets the new quantity and a
      total of its price times that quantity. */
  function QuantityChanged(lines: seq<CartLine>, index: nat, delta: int): (r: seq<CartLine>)
    requires index < |lines|
    ensures lines[index].quantity + delta < 1 ==> |r| == |lines| - 1
    ensures lines[index].quantity + delta >= 1 ==>
      && |r| == |lines|
      && r[index].quantity == lines[index].quantity + delta
      && r[index].total == lines[index].price * r[index].quantity
      && r[index].dishId == lines[index].dishId && r[index].price == lines[index].price
      && forall j :: 0 <= j < |lines| && j != index ==> r[j] == lines[j]
  {
    var quantity := lines[index].quantity + delta;
    if quantity < 1 then RemovedAt(lines, index)
    else lines[index := lines[index].(quantity := quantity, total := lines[index].price * quantity)]
  }

  /** Changing a quantity keeps the lines unique and priced, and moves the cart total
      by the change of that line's total. */
  lemma QuantityChangedFacts(lines: seq<CartLine>, index: nat, delta: int)
    requires index < |lines|
    ensures UniqueDishes(lines) ==> UniqueDishes(QuantityChanged(lines, index, delta))
    ensures Priced(lines) ==> Priced(QuantityChanged(lines, index, delta))
    ensures lines[index].quantity + delta >= 1 ==>
      Sum(QuantityChanged(lines, index, delta), LineTotal)
        == Sum(lines, LineTotal) - lines[index].total + lines[index].price * (lines[index].quantity + delta)
  {
    var r := QuantityChanged(lines, index, delta);
    if lines[index].quantity + delta < 1 {
      RemovedAtKeepsInvariants(lines, index);
    } else {
      assert r == lines[index := r[index]];
      SumUpdate(lines, index, r[index]);
      if UniqueDishes(lines) {
        forall a, b | 0 <= a < b < |r|
          ensures LineDish(r[a]) != LineDish(r[b])
        {
          assert LineDish(r[a]) == LineDish(lines[a]) && LineDish(r[b]) == LineDish(lines[b]);
        }
      }
    }
  }

  /** The request body: one `{dish_id, quantity}` per cart line, in cart order (lines 198-203). */
  function Payload(lines: seq<CartLine>): (r: seq<PayloadLine>)
    ensures |r| == |lines|
    ensures forall i :: 0 <= i < |r| ==> r[i].dishId == lines[i].dishId && r[i].quantity == lines[i].quantity
  {
    seq(|lines|, i requires 0 <= i < |lines| => PayloadLine(lines[i].dishId, lines[i].quantity))
  }

  /** A cart with one line per dish sends each dish once. */
  lemma PayloadNamesEachDishOnce(lines: seq<CartLine>)
    requires UniqueDishes(lines)
    ensures DistinctBy(Payload(lines), PayloadDish)
  {
    var r := Payload(lines);
    forall a, b | 0 <= a < b < |r|
      ensures PayloadDish(r[a]) != PayloadDish(r[b])
    {
      assert LineDish(lines[a]) != LineDish(lines[b]);
    }
  }

  // ------------------------------------------------------------------ the page

  /** The page's cart and its submit button. */
  class CashierPage {
    var currentOrder: seq<CartLine>
    var submitDisabled: bool

    /** The page as loaded: an empty cart, and the button as the markup sets it. */
    constructor(disabled: bool)
      ensures currentOrder == [] && submitDisabled == disabled
    {
      currentOrder := [];
      submitDisabled := disabled;
    }

    /** The button is disabled exactly when the cart is empty. */
    predicate ButtonMatchesCart()
      reads this
    {
      submitDisabled == (|currentOrder| == 0)
    }

    /** `updateSubmitButton` (lines 178-181). */
    method UpdateSubmitButton()
      modifies this
      ensures currentOrder == old(currentOrder)
      ensures ButtonMatchesCart()
    {
      submitDisabled := |currentOrder| == 0;
    }

    /** `addToOrder` (lines 89-108). */
    method AddToOrder(dishId: Id, name: string, price: Money)
      modifies this
      ensures currentOrder == Added(old(currentOrder), dishId, name, price)
      ensures ButtonMatchesCart() && !submitDisabled
    {
      var found := Find(currentOrder, HasDish(dishId));
      if found.Some? {
        currentOrder := currentOrder[found.value := OneMore(currentOrder[found.value], price)];
      } else {
        currentOrder := currentOrder + [CartLine(dishId, name, price, 1, price)];
      }
      UpdateSubmitButton();
    }

    /** `removeFromOrder` (lines 171-175). */
    method RemoveFromOrder(index: int)
      modifies this
      ensures currentOrder == RemovedAt(old(currentOrder), index)
      ensures ButtonMatchesCart()
    {
      var start := if index < 0 then Max(|currentOrder| + index, 0) else index;
      if start < |currentOrder| {
        currentOrder := currentOrder[..start] + currentOrder[start + 1..];
      }
      UpdateSubmitButton();
    }

    /** `changeQuantity` (lines 154-168); the index is one the page rendered, so it
        names a line (any other index makes `item.quantity` throw). */
    method ChangeQuantity(index: nat, delta: int)
      requires index < |currentOrder|
      modifies this
      ensures currentOrder == QuantityChanged(old(currentOrder), index, delta)
      ensures ButtonMatchesCart()
    {
      var line := currentOrder[index];
      var quantity := line.quantity + delta;
      if quantity < 1 {
        RemoveFromOrder(index);
        return;
      }
      currentOrder := currentOrder[index := line.(quantity := quantity, total := line.price * quantity)];
      UpdateSubmitButton();
    }

    /** `clearOrder` (lines 184-192); `confirmed` is the cashier's answer to the dialog. */
    method ClearOrder(confirmed: bool)
      modifies this
      ensures old(currentOrder) == [] || !confirmed ==>
        currentOrder == old(currentOrder) && submitDisabled == old(submitDisabled)
      ensures old(currentOrder) != [] && confirmed ==> currentOrder == [] && submitDisabled
    {
      if |currentOrder| == 0 {
        return;
      }
      if confirmed {
        currentOrder := [];
        UpdateSubmitButton();
      }
    }

    /** The total that `updateOrderDisplay` accumulates over the lines (lines 115-125). */
    method DisplayedTotal() returns (total: Money)
      ensures total == Sum(currentOrder, LineTotal)
      ensures currentOrder == [] ==> total == 0
    {
      if |currentOrder| == 0 {
        return 0;
      }
      total := 0;
      for i := 0 to |currentOrder|
        invariant total == Sum(currentOrder[..i], LineTotal)
      {
        SumPrefix(currentOrder, i, LineTotal);
        total := total + currentOrder[i].total;
      }
      assert currentOrder[..|currentOrder|] == currentOrder;
    }

    /** `submitOrder` (lines 195-250); `succeeded` is whether the server accepted the
        order. An empty cart sends nothing. Otherwise the payload is sent, the cart is
        cleared only on success, and the `finally` block enables the button whatever
        the cart holds. */
    method SubmitOrder(succeeded: bool) returns (sent: Option<seq<PayloadLine>>)
      modifies this
      ensures old(currentOrder) == [] ==>
        sent.None? && currentOrder == old(currentOrder) && submitDisabled == old(submitDisabled)
      ensures old(currentOrder) != [] ==>
        && sent == Some(Payload(old(currentOrder)))
        && currentOrder == (if succeeded then [] else old(currentOrder))
        && !submitDisabled
    {
      if |currentOrder| == 0 {
        return None;
      }
      sent := Some(Payload(currentOrder));
      submitDisabled := true;
      if succeeded {
        currentOrder := [];
        UpdateSubmitButton();
      }
      // finally
      submitDisabled := false;
    }

    /** `submitOrder` with the `finally` block restoring the button from the cart
        (calling `updateSubmitButton`) instead of enabling it. */
    method SubmitOrderKeepingButton(succeeded: bool) returns (sent: Option<seq<PayloadLine>>)
      modifies this
      ensures old(currentOrder) == [] ==>
        sent.None? && currentOrder == old(currentOrder) && submitDisabled == old(submitDisabled)
      ensures old(currentOrder) != [] ==>
        && sent == Some(Payload(old(currentOrder)))
        && currentOrder == (if succeeded then [] else old(currentOrder))
        && ButtonMatchesCart()
    {
      if |currentOrder| == 0 {
        return None;
      }
      sent := Some(Payload(currentOrder));
      submitDisabled := true;
      if succeeded {
        currentOrder := [];
      }
      // finally
      UpdateSubmitButton();
    }
  }

  /** A successful submit of a one-line cart leaves an empty cart with the button
      enabled: the button no longer says whether there is anything to submit. */
  method SubmittedCartLeavesButtonEnabled() returns (cart: seq<CartLine>, disabled: bool)
    ensures cart == [] && !disabled
  {
    var page := new CashierPage(true);
    page.AddToOrder("borscht", "Борщ", 25000);
    var sent := page.SubmitOrder(true);
    cart, disabled := page.currentOrder, page.submitDisabled;
  }

  /** The same submit with the corrected `finally` leaves the button disabled. */
  method SubmittedCartDisablesButton() returns (cart: seq<CartLine>, disabled: bool)
    ensures cart == [] && disabled
  {
    var page := new CashierPage(true);
    page.AddToOrder("borscht", "Борщ", 25000);
    var sent := page.SubmitOrderKeepingButton(true);
    cart, disabled := page.currentOrder, page.submitDisabled;
  }

  // ------------------------------------------------------------ plural forms

  /** JavaScript's `%`: the remainder takes the sign of the dividend. */
  function JsRem(a: int, b: int): (r: int)
    requires b > 0
    ensures a >= 0 ==> 0 <= r < b
    ensures a < 0 ==> -b < r <= 0
  {
    if a >= 0 then a % b else -((-a) % b)
  }

  const PluralCases: seq<int> := [2, 0, 1, 1, 1, 2]

  /** The index `pluralize` picks (line 341); None where the index is `undefined`
      (a negative number gives a negative index into `cases`). */
  function PluralIndex(n: int): Option<int> {
    var lastTwo := JsRem(n, 100);
    if 4 < lastTwo < 20 then Some(2)
    else
      var k := Min(JsRem(n, 10), 5);
      if 0 <= k then Some(PluralCases[k]) else None
  }

  /** `pluralize(number, words)`: the word of the form the number takes, None where
      JavaScript yields `undefined`. */
  function Pluralize(n: int, words: seq<string>): (r: Option<string>)
    ensures n >= 0 && |words| >= 3 ==> r.Some? && r.value in words[..3]
  {
    match PluralIndex(n)
    case Some(i) =>
      PluralIndexInRange(n);
      if i < |words| then Some(words[i]) else None
    case None => None
  }

  /** The Russian rule for the form of a noun after a count: one ending in 1 (but
      not 11) takes the singular, one ending in 2 to 4 (but not 12 to 14) the
      paucal, every other the plural. */
  function RussianForm(n: nat): (r: nat)
    ensures r <= 2
  {
    if n % 10 == 1 && n % 100 != 11 then 0
    else if 2 <= n % 10 <= 4 && !(12 <= n % 100 <= 14) then 1
    else 2
  }

  /** For a count of zero or more the index is a form, and it is the one the Russian rule picks. */
  lemma PluralIndexInRange(n: int)
    ensures n >= 0 ==> PluralIndex(n).Some? && 0 <= PluralIndex(n).value <= 2
    ensures n >= 0 ==> PluralIndex(n) == Some(RussianForm(n))
  {
    if n >= 0 {
      LastDigitOfLastTwo(n);
      var t, d := n % 100, n % 10;
      assert JsRem(n, 100) == t && JsRem(n, 10) == d;
    }
  }

  /** A negative count yields the plural when it ends in 0 and `undefined` otherwise. */
  lemma PluralIndexNegative(n: int)
    requires n < 0
    ensures PluralIndex(n) == if JsRem(n, 10) == 0 then Some(2) else None
  {
    assert JsRem(n, 100) <= 0;
  }

  /** The last digit of the last two digits is the last digit. */
  lemma LastDigitOfLastTwo(n: nat)
    ensures n % 100 % 10 == n % 10
  {
    var q := n / 100;
    assert n == 10 * (10 * q) + n % 100;
    ModTenShift(10 * q, n % 100);
  }

  /** Adding a multiple of ten keeps the last digit. */
  lemma {:induction false} ModTenShift(k: nat, t: int)
    ensures (10 * k + t) % 10 == t % 10
    decreases k
  {
    if k > 0 {
      ModTenShift(k - 1, t);
      assert 10 * k + t == (10 * (k - 1) + t) + 10;
    }
  }

  /** `pluralize(1, …)`, `pluralize(22, …)` and `pluralize(11, …)` as the captions use them. */
  lemma PluralExamples()
    ensures Pluralize(1, ["позиция", "позиции", "позиций"]) == Some("позиция")
    ensures Pluralize(22, ["позиция", "позиции", "позиций"]) == Some("позиции")
    ensures Pluralize(11, ["заказ", "заказа", "заказов"]) == Some("заказов")
  {
  }
}
