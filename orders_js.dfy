/** The order of the single-page client (frontend/js/orders.js): the lines of the
    order being built, the cash the customer handed over, and the request body of
    the order it saves. Its lines have the shape of the cashier page's cart lines. */
module OrdersJs {
  import opened Seqs
  import opened Store
  import opened CashierJs
  import MenuJs

  const CustomPrefix: string := "custom_"
  const DefaultCustomer: string := "Касса"
  const NoItemsError: string := "No items in order"
  const InvalidItemError: string := "Invalid item data"

  /** The `quantity` argument of `addCustomItem`, 1 when it is not passed. */
  const DefaultQuantity: int := 1

  function QuantityOrDefault(quantity: Option<int>): int {
    if quantity.Some? then quantity.value else DefaultQuantity
  }

  /** A line's price times its quantity. */
  function LineValue(l: CartLine): int { l.price * l.quantity }

  /** One entry of the `items` of the saved order. */
  datatype PayloadItem = PayloadItem(dishId: Id, quantity: int, itemTotal: Money)

  /** The body `saveOrder` sends (lines 99-107). */
  datatype OrderPayload = OrderPayload(customerName: string, customerPhone: Option<string>, items: seq<PayloadItem>)

  function LineQuantity(l: CartLine): int { l.quantity }

  function PayloadTotal(p: PayloadItem): int { p.itemTotal }

  function HasName(name: string): CartLine -> bool {
    (l: CartLine) => l.name == name
  }

  function NotDish(dishId: Id): CartLine -> bool {
    (l: CartLine) => l.dishId != dishId
  }

  /** Every line holds at least one unit. */
  predicate Positive(lines: seq<CartLine>) {
    forall i :: 0 <= i < |lines| ==> lines[i].quantity >= 1
  }

  // ------------------------------------------------------------- custom ids

  function Digit(d: nat): (r: char)
    requires d < 10
    ensures '0' <= r <= '9'
  {
    ('0' as int + d) as char
  }

  /** The decimal numeral of n, as string concatenation renders a number. */
  function Decimal(n: nat): (r: string)
    ensures |r| >= 1
    ensures forall i :: 0 <= i < |r| ==> '0' <= r[i] <= '9'
    decreases n
  {
    if n < 10 then [Digit(n)] else Decimal(n / 10) + [Digit(n % 10)]
  }

  /** Different numbers have different numerals. */
  lemma {:induction false} DecimalInjective(a: nat, b: nat)
    requires Decimal(a) == Decimal(b)
    ensures a == b
    decreases a
  {
    if a >= 10 && b >= 10 {
      var da, db := Decimal(a), Decimal(b);
      assert da[..|da| - 1] == Decimal(a / 10);
      assert db[..|db| - 1] == Decimal(b / 10);
      DecimalInjective(a / 10, b / 10);
      assert Digit(a % 10) == da[|da| - 1] == db[|db| - 1] == Digit(b % 10);
    }
  }

  /** `'custom_' + Date.now()`, for the clock reading `now` in milliseconds. */
  function CustomId(now: nat): (r: Id)
    ensures |r| == |CustomPrefix| + |Decimal(now)|
    ensures r[..|CustomPrefix|] == CustomPrefix
    ensures r[|CustomPrefix|..] == Decimal(now)
  {
    CustomPrefix + Decimal(now)
  }

  /** Custom items added at different clock readings get different ids. */
  lemma CustomIdsDiffer(t1: nat, t2: nat)
    requires t1 != t2
    ensures CustomId(t1) != CustomId(t2)
  {
    if CustomId(t1) == CustomId(t2) {
      assert CustomId(t1)[|CustomPrefix|..] == CustomId(t2)[|CustomPrefix|..];
      DecimalInjective(t1, t2);
    }
  }

  // ------------------------------------------------------------ custom items

  /** The line with `quantity` more units and a total of its new quantity times the
      price passed in; its own price, name and dish stay. */
  function Merged(line: CartLine, quantity: int, price: Money): (r: CartLine)
    ensures r.quantity == line.quantity + quantity && r.total == r.quantity * price
    ensures r.dishId == line.dishId && r.name == line.name && r.price == line.price
  {
    line.(quantity := line.quantity + quantity, total := (line.quantity + quantity) * price)
  }

  /** A new line of a custom item. */
  function CustomLine(customId: Id, name: string, price: Money, quantity: int): (r: CartLine)
    ensures r.dishId == customId && r.name == name && r.price == price && r.quantity == quantity
    ensures r.total == r.price * r.quantity
  {
    CartLine(customId, name, price, quantity, price * quantity)
  }

  /** The lines after a valid `addCustomItem(name, price, quantity)` (lines 44-57): the
      first line of the same name, menu dish or not, gets the units and a total at the
      price passed in; otherwise a line of the custom item is appended. */
  function CustomAdded(lines: seq<CartLine>, name: string, price: Money, quantity: int, customId: Id): (r: seq<CartLine>)
    ensures Find(lines, HasName(name)).Some? ==>
      var i := Find(lines, HasName(name)).value;
      && |r| == |lines| && r[i] == Merged(lines[i], quantity, price) && r[i].name == name
      && forall j :: 0 <= j < |lines| && j != i ==> r[j] == lines[j]
    ensures Find(lines, HasName(name)).None? ==> r == lines + [CustomLine(customId, name, price, quantity)]
  {
    match Find(lines, HasName(name))
    case Some(i) => lines[i := Merged(lines[i], quantity, price)]
    case None => lines + [CustomLine(customId, name, price, quantity)]
  }

  /** Adding at least one unit keeps every line at one unit or more, and afterwards a
      line carries the name. */
  lemma CustomAddedKeepsPositive(lines: seq<CartLine>, name: string, price: Money, quantity: int, customId: Id)
    requires Positive(lines) && quantity >= 1
    ensures Positive(CustomAdded(lines, name, price, quantity, customId))
    ensures exists i ::
      && 0 <= i < |CustomAdded(lines, name, price, quantity, customId)|
      && CustomAdded(lines, name, price, quantity, customId)[i].name == name
  {
    var r := CustomAdded(lines, name, price, quantity, customId);
    match Find(lines, HasName(name))
    case Some(i) =>
      assert r[i].name == name;
      forall j | 0 <= j < |r|
        ensures r[j].quantity >= 1
      {
        if j != i {
          assert r[j] == lines[j];
        }
      }
    case None =>
      assert r[|lines|].name == name;
  }

  /** Adding `quantity` units of a name whose line, if any, has the price passed in
      keeps every total at price times quantity and raises the order total by price
      times quantity. */
  lemma CustomAddedAtSamePrice(lines: seq<CartLine>, name: string, price: Money, quantity: int, customId: Id)
    requires Priced(lines)
    requires forall j :: 0 <= j < |lines| && lines[j].name == name ==> lines[j].price == price
    ensures Priced(CustomAdded(lines, name, price, quantity, customId))
    ensures Sum(CustomAdded(lines, name, price, quantity, customId), LineTotal) == Sum(lines, LineTotal) + price * quantity
  {
    var r := CustomAdded(lines, name, price, quantity, customId);
    match Find(lines, HasName(name))
    case Some(i) =>
      assert HasName(name)(lines[i]);
      MergedAtSamePrice(lines[i], quantity, price);
      forall j | 0 <= j < |r|
        ensures r[j].total == r[j].price * r[j].quantity
      {
        if j != i {
          assert r[j] == lines[j];
        }
      }
      assert r == lines[i := Merged(lines[i], quantity, price)];
      SumUpdate(lines, i, Merged(lines[i], quantity, price));
    case None =>
      SumLast(lines, CustomLine(customId, name, price, quantity), LineTotal);
  }

  /** A line priced at p merged at p keeps its total at price times quantity, `quantity` times p more. */
  lemma MergedAtSamePrice(line: CartLine, quantity: int, price: Money)
    requires line.price == price && line.total == line.price * line.quantity
    ensures Merged(line, quantity, price).total == Merged(line, quantity, price).price * Merged(line, quantity, price).quantity
    ensures Merged(line, quantity, price).total == line.total + price * quantity
  {
    assert (line.quantity + quantity) * price == line.quantity * price + quantity * price;
  }

  /** A custom item named like a line of another price is merged at its own price:
      the line keeps its old price, so its total is no longer price times quantity. */
  lemma CustomMergeAtOtherPrice(lines: seq<CartLine>, name: string, price: Money, quantity: int, customId: Id, i: nat)
    requires Find(lines, HasName(name)) == Some(i)
    requires lines[i].price != price && lines[i].quantity + quantity >= 1
    ensures !Priced(CustomAdded(lines, name, price, quantity, customId))
  {
    var r := CustomAdded(lines, name, price, quantity, customId);
    var n := r[i].quantity;
    assert n >= 1 && r[i].total == n * price && r[i].price == lines[i].price;
    DifferentPricesDifferentTotals(n, price, lines[i].price);
  }

  lemma DifferentPricesDifferentTotals(n: int, p: int, q: int)
    requires n >= 1 && p != q
    ensures n * p != q * n
  {
    if p < q {
      assert n * p < n * q;
    } else {
      assert n * p > n * q;
    }
  }

  // ------------------------------------------------------- quantity and removal

  /** The lines after `removeItem(dishId)` (lines 73-75): every line of the dish goes. */
  function WithoutDish(lines: seq<CartLine>, dishId: Id): (r: seq<CartLine>)
    ensures forall i :: 0 <= i < |r| ==> r[i].dishId != dishId
    ensures forall l :: l in r <==> l in lines && l.dishId != dishId
    ensures SubsequenceOf(r, lines)
  {
    FilterIsSubsequence(lines, NotDish(dishId));
    Filter(lines, NotDish(dishId))
  }

  /** Removing a dish takes off the order total the totals of its lines, and nothing else. */
  lemma {:induction false} WithoutDishTotal(lines: seq<CartLine>, dishId: Id)
    ensures Sum(WithoutDish(lines, dishId), LineTotal)
      == Sum(lines, LineTotal) - Sum(Filter(lines, HasDish(dishId)), LineTotal)
    decreases |lines|
  {
    if lines != [] {
      var n := |lines| - 1;
      var front, x := lines[..n], lines[n];
      WithoutDishTotal(front, dishId);
      if x.dishId == dishId {
        assert Filter(lines, HasDish(dishId)) == Filter(front, HasDish(dishId)) + [x];
        assert Filter(lines, NotDish(dishId)) == Filter(front, NotDish(dishId));
        SumLast(Filter(front, HasDish(dishId)), x, LineTotal);
      } else {
        assert Filter(lines, NotDish(dishId)) == Filter(front, NotDish(dishId)) + [x];
        assert Filter(lines, HasDish(dishId)) == Filter(front, HasDish(dishId));
        SumLast(Filter(front, NotDish(dishId)), x, LineTotal);
      }
    }
  }

  /** Removing the dish of exactly one line removes that position. */
  lemma FilterSkipsOne(lines: seq<CartLine>, dishId: Id, i: nat)
    requires i < |lines| && lines[i].dishId == dishId
    requires forall j :: 0 <= j < |lines| && j != i ==> lines[j].dishId != dishId
    ensures Filter(lines, NotDish(dishId)) == lines[..i] + lines[i + 1..]
  {
    var front, x, back := lines[..i], lines[i], lines[i + 1..];
    SplitAt(lines, i);
    FilterAll(front, NotDish(dishId));
    forall j | 0 <= j < |back|
      ensures NotDish(dishId)(back[j])
    {
      assert back[j] == lines[i + 1 + j];
    }
    FilterAll(back, NotDish(dishId));
    FilterDropsMiddle(front, x, back, NotDish(dishId));
  }

  /** A filter that keeps both ends and drops the element between them yields the two ends. */
  lemma FilterDropsMiddle(front: seq<CartLine>, x: CartLine, back: seq<CartLine>, p: CartLine -> bool)
    requires !p(x) && Filter(front, p) == front && Filter(back, p) == back
    ensures Filter(front + [x] + back, p) == front + back
  {
    var fx := front + [x];
    assert fx[..|fx| - 1] == front;
    assert Filter(fx, p) == front;
    FilterAppend(fx, back, p);
  }

  /** In an order with one line per dish, removing the dish removes exactly its line,
      as removing that position does. */
  lemma WithoutUniqueDish(lines: seq<CartLine>, dishId: Id, i: nat)
    requires UniqueDishes(lines) && Find(lines, HasDish(dishId)) == Some(i)
    ensures WithoutDish(lines, dishId) == RemovedAt(lines, i)
  {
    forall j | 0 <= j < |lines| && j != i
      ensures lines[j].dishId != dishId
    {
      assert LineDish(lines[i]) != LineDish(lines[j]);
    }
    FilterSkipsOne(lines, dishId, i);
    assert RemovedAt(lines, i) == lines[..i] + lines[i + 1..];
  }

  /** In an order with one line per dish, removing the dish takes its line's total
      off the order total. */
  lemma WithoutUniqueDishTotal(lines: seq<CartLine>, dishId: Id, i: nat)
    requires UniqueDishes(lines) && Find(lines, HasDish(dishId)) == Some(i)
    ensures Sum(WithoutDish(lines, dishId), LineTotal) == Sum(lines, LineTotal) - lines[i].total
  {
    WithoutUniqueDish(lines, dishId, i);
    RemovedAtTotal(lines, i);
  }

  /** The lines after `updateItemQuantity(dishId, newQuantity)` (lines 60-71): nothing
      changes when no line has the dish; a quantity below one removes the dish;
      otherwise the first line of the dish gets the quantity and a total of that
      quantity times its own price. */
  function QuantitySet(lines: seq<CartLine>, dishId: Id, newQuantity: int): (r: seq<CartLine>)
    ensures Find(lines, HasDish(dishId)).None? ==> r == lines
    ensures Find(lines, HasDish(dishId)).Some? && newQuantity < 1 ==> r == WithoutDish(lines, dishId)
    ensures Find(lines, HasDish(dishId)).Some? && newQuantity >= 1 ==>
      var i := Find(lines, HasDish(dishId)).value;
      && |r| == |lines| && r[i].quantity == newQuantity && r[i].total == newQuantity * r[i].price
      && r[i].dishId == dishId && r[i].price == lines[i].price && r[i].name == lines[i].name
      && forall j :: 0 <= j < |lines| && j != i ==> r[j] == lines[j]
  {
    match Find(lines, HasDish(dishId))
    case None => lines
    case Some(i) =>
      if newQuantity < 1 then WithoutDish(lines, dishId)
      else lines[i := lines[i].(quantity := newQuantity, total := newQuantity * lines[i].price)]
  }

  /** Setting a quantity keeps every line at one unit or more, one line per dish and
      every total at price times quantity. */
  lemma QuantitySetKeepsInvariants(lines: seq<CartLine>, dishId: Id, newQuantity: int)
    ensures Positive(lines) ==> Positive(QuantitySet(lines, dishId, newQuantity))
    ensures UniqueDishes(lines) ==> UniqueDishes(QuantitySet(lines, dishId, newQuantity))
    ensures Priced(lines) ==> Priced(QuantitySet(lines, dishId, newQuantity))
  {
    var r := QuantitySet(lines, dishId, newQuantity);
    match Find(lines, HasDish(dishId))
    case None =>
    case Some(i) =>
      if newQuantity < 1 {
        WithoutDishKeepsInvariants(lines, dishId);
      } else {
        forall j | 0 <= j < |r| && j != i
          ensures r[j] == lines[j]
        {
        }
        if UniqueDishes(lines) {
          forall a, b | 0 <= a < b < |r|
            ensures LineDish(r[a]) != LineDish(r[b])
          {
            assert LineDish(r[a]) == LineDish(lines[a]) && LineDish(r[b]) == LineDish(lines[b]);
          }
        }
      }
  }

  /** Removing a dish keeps every line at one unit or more, one line per dish and
      every total at price times quantity. */
  lemma WithoutDishKeepsInvariants(lines: seq<CartLine>, dishId: Id)
    ensures Positive(lines) ==> Positive(WithoutDish(lines, dishId))
    ensures UniqueDishes(lines) ==> UniqueDishes(WithoutDish(lines, dishId))
    ensures Priced(lines) ==> Priced(WithoutDish(lines, dishId))
  {
    var r := WithoutDish(lines, dishId);
    forall j | 0 <= j < |r|
      ensures r[j] in lines
    {
    }
    if UniqueDishes(lines) {
      match Find(lines, HasDish(dishId))
      case Some(i) =>
        WithoutUniqueDish(lines, dishId, i);
        RemovedAtKeepsInvariants(lines, i);
      case None =>
        FilterAll(lines, NotDish(dishId));
    }
  }

  /** Setting the quantity of a dish's line moves the order total by the change of
      that line's total. */
  lemma QuantitySetTotal(lines: seq<CartLine>, dishId: Id, newQuantity: int, i: nat)
    requires Find(lines, HasDish(dishId)) == Some(i) && newQuantity >= 1
    ensures Sum(QuantitySet(lines, dishId, newQuantity), LineTotal)
      == Sum(lines, LineTotal) - lines[i].total + newQuantity * lines[i].price
  {
    var r := QuantitySet(lines, dishId, newQuantity);
    assert r == lines[i := r[i]];
    SumUpdate(lines, i, r[i]);
  }

  /** Adding a menu dish keeps every line at one unit or more. */
  lemma AddedKeepsPositive(lines: seq<CartLine>, dishId: Id, name: string, price: Money)
    requires Positive(lines)
    ensures Positive(Added(lines, dishId, name, price))
  {
    var r := Added(lines, dishId, name, price);
    match Find(lines, HasDish(dishId))
    case Some(i) =>
      forall j | 0 <= j < |r|
        ensures r[j].quantity >= 1
      {
        if j != i {
          assert r[j] == lines[j];
        }
      }
    case None =>
  }

  // ------------------------------------------------------------ totals and payload

  /** With every line at one unit or more, there are at least as many units as lines. */
  lemma {:induction false} UnitsCoverLines(lines: seq<CartLine>)
    ensures Positive(lines) ==> Sum(lines, LineQuantity) >= |lines|
    decreases |lines|
  {
    if lines != [] {
      UnitsCoverLines(lines[..|lines| - 1]);
    }
  }

  /** The `items` of the request body: one `{dish_id, quantity, item_total}` per line, in order. */
  function PayloadItems(lines: seq<CartLine>): (r: seq<PayloadItem>)
    ensures |r| == |lines|
    ensures forall i :: 0 <= i < |r| ==>
      r[i].dishId == lines[i].dishId && r[i].quantity == lines[i].quantity && r[i].itemTotal == lines[i].total
  {
    seq(|lines|, i requires 0 <= i < |lines| => PayloadItem(lines[i].dishId, lines[i].quantity, lines[i].total))
  }

  /** The item totals of the body add up to the order total the page shows. */
  lemma PayloadItemsAddUp(lines: seq<CartLine>)
    ensures Sum(PayloadItems(lines), PayloadTotal) == Sum(lines, LineTotal)
  {
    SumPointwise(PayloadItems(lines), PayloadTotal, lines, LineTotal);
  }

  /** While every line is priced at its own price, the line totals add up to the sum of
      price × quantity. */
  lemma PricedTotal(lines: seq<CartLine>)
    ensures Priced(lines) ==> Sum(lines, LineTotal) == Sum(lines, LineValue)
  {
    if Priced(lines) {
      SumPointwise(lines, LineTotal, lines, LineValue);
    }
  }

  // -------------------------------------------------------------- the manager

  /** The order being built; `menu` is the menu state it looks dishes up in. */
  class OrderManager {
    const menu: MenuJs.MenuManager
    var items: seq<CartLine>
    var cashPaid: Money

    /** `constructor(menuManager)` (lines 5-9). */
    constructor(menuManager: MenuJs.MenuManager)
      ensures menu == menuManager && items == [] && cashPaid == 0
    {
      menu := menuManager;
      items := [];
      cashPaid := 0;
    }

    /** Every line of the order holds at least one unit. */
    predicate Valid()
      reads this
    {
      Positive(items)
    }

    /** `addToOrder(dishId)` (lines 11-35): a dish the menu does not know changes
        nothing; otherwise it is added at the menu's name and price. */
    method AddToOrder(dishId: Id)
      modifies this
      ensures menu.GetDish(dishId).None? ==> items == old(items)
      ensures menu.GetDish(dishId).Some? ==>
        items == Added(old(items), dishId, menu.GetDish(dishId).value.name, menu.GetDish(dishId).value.price)
      ensures cashPaid == old(cashPaid)
      ensures old(Valid()) ==> Valid()
    {
      var dish := menu.GetDish(dishId);
      if dish.None? {
        return;
      }
      var d := dish.value;
      if Valid() {
        AddedKeepsPositive(items, dishId, d.name, d.price);
      }
      var found := Find(items, HasDish(dishId));
      if found.Some? {
        items := items[found.value := OneMore(items[found.value], d.price)];
      } else {
        items := items + [CartLine(dishId, d.name, d.price, 1, d.price)];
      }
    }

    /** `addCustomItem(name, price, quantity = 1)` (lines 37-58) at the clock reading `now`,
        a missing quantity counting as one; an empty name, a price of zero or less or a
        quantity below one is rejected and changes nothing. */
    method AddCustomItem(name: string, price: Money, quantity: Option<int>, now: nat) returns (r: Result<(), string>)
      modifies this
      ensures r.Failure? <==> name == [] || price <= 0 || QuantityOrDefault(quantity) < 1
      ensures r.Failure? ==> r.error == InvalidItemError && items == old(items)
      ensures r.Success? ==> items == CustomAdded(old(items), name, price, QuantityOrDefault(quantity), CustomId(now))
      ensures cashPaid == old(cashPaid)
      ensures old(Valid()) ==> Valid()
    {
      var n := QuantityOrDefault(quantity);
      if name == [] || price <= 0 || n < 1 {
        return Failure(InvalidItemError);
      }
      var customId := CustomId(now);
      if Valid() {
        CustomAddedKeepsPositive(items, name, price, n, customId);
      }
      var found := Find(items, HasName(name));
      if found.Some? {
        items := items[found.value := Merged(items[found.value], n, price)];
      } else {
        items := items + [CustomLine(customId, name, price, n)];
      }
      return Success(());
    }

    /** `updateItemQuantity(dishId, newQuantity)` (lines 60-71). */
    method UpdateItemQuantity(dishId: Id, newQuantity: int)
      modifies this
      ensures items == QuantitySet(old(items), dishId, newQuantity)
      ensures cashPaid == old(cashPaid)
      ensures old(Valid()) ==> Valid()
    {
      QuantitySetKeepsInvariants(items, dishId, newQuantity);
      var found := Find(items, HasDish(dishId));
      if found.None? {
        return;
      }
      if newQuantity < 1 {
        RemoveItem(dishId);
        return;
      }
      var i := found.value;
      items := items[i := items[i].(quantity := newQuantity, total := newQuantity * items[i].price)];
    }

    /** `removeItem(dishId)` (lines 73-75). */
    method RemoveItem(dishId: Id)
      modifies this
      ensures items == WithoutDish(old(items), dishId)
      ensures cashPaid == old(cashPaid)
      ensures old(Valid()) ==> Valid()
    {
      WithoutDishKeepsInvariants(items, dishId);
      items := Filter(items, NotDish(dishId));
    }

    /** `clearOrder` (lines 77-80). */
    method ClearOrder()
      modifies this
      ensures items == [] && cashPaid == 0
      ensures TotalAmount() == 0 && ChangeAmount() == 0
    {
      items := [];
      cashPaid := 0;
    }

    /** `getTotalAmount` (lines 82-84): the sum of the line totals, which is the sum of
        price × quantity while every line is priced at its own price. */
    function TotalAmount(): (r: Money)
      reads this
      ensures items == [] ==> r == 0
      ensures Priced(items) ==> r == Sum(items, LineValue)
    {
      PricedTotal(items);
      Sum(items, LineTotal)
    }

    /** `getTotalQuantity` (lines 86-88): the number of units over all lines. */
    function TotalQuantity(): (r: int)
      reads this
      ensures Valid() ==> r >= |items|
    {
      UnitsCoverLines(items);
      Sum(items, LineQuantity)
    }

    /** `getChangeAmount` (lines 90-92): what the customer gets back, never negative. */
    function ChangeAmount(): (r: Money)
      reads this
      ensures r >= 0 && r >= cashPaid - TotalAmount()
      ensures r == 0 || r == cashPaid - TotalAmount()
      ensures cashPaid <= TotalAmount() ==> r == 0
    {
      Max(0, cashPaid - TotalAmount())
    }

    /** `setCashPaid(amount)` (lines 193-195); None stands for input `parseFloat`
        reads as NaN, which becomes zero. */
    method SetCashPaid(amount: Option<Money>)
      modifies this
      ensures cashPaid == (if amount.Some? then amount.value else 0)
      ensures items == old(items)
    {
      cashPaid := if amount.Some? then amount.value else 0;
    }

    /** `saveOrder(customerName, customerPhone)` (lines 94-116): the body posted to the
        server; an omitted name defaults to "Касса", and an empty order is refused
        before anything is sent. The server's answer is not part of this model. */
    method SaveOrder(customerName: Option<string>, customerPhone: Option<string>) returns (r: Result<OrderPayload, string>)
      ensures items == [] <==> r.Failure?
      ensures r.Failure? ==> r.error == NoItemsError
      ensures r.Success? ==>
        && r.value.customerName == (if customerName.Some? then customerName.value else DefaultCustomer)
        && r.value.customerPhone == customerPhone
        && |r.value.items| == |items|
        && Sum(r.value.items, PayloadTotal) == TotalAmount()
        && forall i :: 0 <= i < |items| ==>
             r.value.items[i] == PayloadItem(items[i].dishId, items[i].quantity, items[i].total)
    {
      if |items| == 0 {
        return Failure(NoItemsError);
      }
      var name := if customerName.Some? then customerName.value else DefaultCustomer;
      PayloadItemsAddUp(items);
      return Success(OrderPayload(name, customerPhone, PayloadItems(items)));
    }
  }
}
