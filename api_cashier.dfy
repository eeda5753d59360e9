/** The cashier endpoints of the api variant (backend/src/api/cashier.py):
    the menu grouped by category, order creation with server-side pricing,
    today's orders and the details of one order. */
module ApiCashier {
  import opened Seqs
  import opened Store

  // ------------------------------------------------------------------ menu

  /** One dish of `/menu`, joined with its category. */
  datatype MenuEntry = MenuEntry(dishId: Id, name: string, price: Money, categoryId: Id, categoryName: string)

  const Uncategorised: string := "Без категории"

  function HasCategory(categories: map<Id, Category>): Dish -> bool {
    (d: Dish) => d.categoryId in categories
  }

  function EntryOf(d: Dish, categories: map<Id, Category>): MenuEntry {
    MenuEntry(d.id, d.name, d.price, d.categoryId,
              if d.categoryId in categories then categories[d.categoryId].name else Uncategorised)
  }

  /** `db.query(Dish).join(Category).all()`: the dishes whose category exists, in store order. */
  function MenuEntries(dishes: map<Id, Dish>, categories: map<Id, Category>, listing: seq<Id>): (r: seq<MenuEntry>)
    requires forall k :: k in listing ==> k in dishes
  {
    var joined := Filter(Rows(dishes, listing), HasCategory(categories));
    seq(|joined|, i requires 0 <= i < |joined| => EntryOf(joined[i], categories))
  }

  function InGroup(name: string): MenuEntry -> bool {
    (e: MenuEntry) => e.categoryName == name
  }

  /** The category names that occur among the entries. */
  function Names(entries: seq<MenuEntry>): set<string> {
    set e | e in entries :: e.categoryName
  }

  /** GET /menu: the joined dishes grouped by category name, in store order inside each group. */
  method GetMenu(db: Database, listing: seq<Id>) returns (groups: map<string, seq<MenuEntry>>)
    requires Lists(db.dishes, listing)
    ensures var entries := MenuEntries(db.dishes, db.categories, listing);
      && groups.Keys == Names(entries)
      && (forall name :: name in groups ==> groups[name] == Filter(entries, InGroup(name)))
  {
    var menu := MenuEntries(db.dishes, db.categories, listing);
    groups := GroupByCategoryName(menu);
  }

  /** The groups of the entries: one per category name, holding that name's entries in order. */
  ghost predicate Grouped(groups: map<string, seq<MenuEntry>>, entries: seq<MenuEntry>) {
    && groups.Keys == Names(entries)
    && forall name :: name in groups ==> groups[name] == Filter(entries, InGroup(name))
  }

  /** The grouping loop of `/menu` (lines 30-35): one group per category name, each
      holding that name's entries in their original order. */
  method GroupByCategoryName(menu: seq<MenuEntry>) returns (groups: map<string, seq<MenuEntry>>)
    ensures groups.Keys == Names(menu)
    ensures forall name :: name in groups ==> groups[name] == Filter(menu, InGroup(name))
  {
    groups := map[];
    for i := 0 to |menu|
      invariant Grouped(groups, menu[..i])
    {
      var item := menu[i];
      var catName := item.categoryName;
      // a missing group starts empty, then the entry is appended
      var group := if catName in groups then groups[catName] else [];
      var before := groups;
      groups := groups[catName := group + [item]];
      GroupStep(before, groups, menu, i);
    }
    GroupedAll(groups, menu);
  }

  lemma GroupedAll(groups: map<string, seq<MenuEntry>>, entries: seq<MenuEntry>)
    requires Grouped(groups, entries[..|entries|])
    ensures groups.Keys == Names(entries)
    ensures forall name :: name in groups ==> groups[name] == Filter(entries, InGroup(name))
  {
    assert entries[..|entries|] == entries;
  }

  /** A name that no entry carries has an empty group. */
  lemma NoGroupYet(entries: seq<MenuEntry>, name: string)
    requires name !in Names(entries)
    ensures Filter(entries, InGroup(name)) == []
  {
  }

  /** One pass of the grouping loop: the entry is appended to its name's group,
      created empty when missing. */
  lemma GroupStep(groups: map<string, seq<MenuEntry>>, next: map<string, seq<MenuEntry>>, entries: seq<MenuEntry>, i: nat)
    requires i < |entries| && Grouped(groups, entries[..i])
    requires var k := entries[i].categoryName;
      next == groups[k := (if k in groups then groups[k] else []) + [entries[i]]]
    ensures Grouped(next, entries[..i + 1])
  {
    NamesStep(entries, i);
    GroupStepValues(groups, next, entries, i);
  }

  lemma GroupStepValues(groups: map<string, seq<MenuEntry>>, next: map<string, seq<MenuEntry>>, entries: seq<MenuEntry>, i: nat)
    requires i < |entries| && Grouped(groups, entries[..i])
    requires var k := entries[i].categoryName;
      next == groups[k := (if k in groups then groups[k] else []) + [entries[i]]]
    ensures forall name :: name in next ==> next[name] == Filter(entries[..i + 1], InGroup(name))
  {
    var k := entries[i].categoryName;
    if k !in groups {
      NoGroupYet(entries[..i], k);
    }
    forall name | name in next
      ensures next[name] == Filter(entries[..i + 1], InGroup(name))
    {
      FilterPrefix(entries, i, InGroup(name));
    }
  }

  /** One more entry adds its category name to the names. */
  lemma NamesStep(entries: seq<MenuEntry>, i: nat)
    requires i < |entries|
    ensures Names(entries[..i + 1]) == Names(entries[..i]) + {entries[i].categoryName}
  {
    assert entries[..i + 1] == entries[..i] + [entries[i]];
  }

  /** Every joined dish lies in the group of its own category name and in no other. */
  lemma {:induction false} EachDishInOneGroup(groups: map<string, seq<MenuEntry>>, entries: seq<MenuEntry>, e: MenuEntry)
    requires groups.Keys == Names(entries)
    requires forall name :: name in groups ==> groups[name] == Filter(entries, InGroup(name))
    requires e in entries
    ensures e.categoryName in groups && e in groups[e.categoryName]
    ensures forall name :: name in groups && name != e.categoryName ==> e !in groups[name]
  {
    assert InGroup(e.categoryName)(e);
  }

  // ---------------------------------------------------------- create order

  /** One `{dish_id, quantity}` of the request; nothing bounds the quantity. */
  datatype LineRequest = LineRequest(dishId: Id, quantity: int)

  datatype Created = Created(orderId: Id, total: Money)

  /** `dish.price * item.quantity`, for a dish that exists. */
  function LinePrice(dishes: map<Id, Dish>): LineRequest -> int {
    (l: LineRequest) => if l.dishId in dishes then dishes[l.dishId].price * l.quantity else 0
  }

  /** Index of the first requested dish that is not in the store, if any. */
  function FirstUnknown(request: seq<LineRequest>, dishes: map<Id, Dish>): (r: Option<nat>)
    ensures r.Some? ==> r.value < |request| && request[r.value].dishId !in dishes
    ensures r.Some? ==> forall i :: 0 <= i < r.value ==> request[i].dishId in dishes
    ensures r.None? <==> forall i :: 0 <= i < |request| ==> request[i].dishId in dishes
    decreases |request|
  {
    if request == [] then None
    else if request[0].dishId !in dishes then Some(0)
    else match FirstUnknown(request[1..], dishes)
      case None => None
      case Some(j) => Some(j + 1)
  }

  /** The row `OrderItem(order_id, dish_id, quantity, item_total)` created for one line. */
  function ItemFor(orderId: Id, itemId: Id, line: LineRequest, dishes: map<Id, Dish>): OrderItem {
    OrderItem(itemId, orderId, line.dishId, line.quantity, LinePrice(dishes)(line))
  }

  /** The line-item rows staged for the request, one per line (never merged). */
  function StagedItems(orderId: Id, itemIds: seq<Id>, request: seq<LineRequest>, dishes: map<Id, Dish>): map<Id, OrderItem>
    requires |itemIds| == |request|
    decreases |request|
  {
    if request == [] then map[]
    else
      var n := |request| - 1;
      StagedItems(orderId, itemIds[..n], request[..n], dishes)[itemIds[n] := ItemFor(orderId, itemIds[n], request[n], dishes)]
  }

  /** Each line i becomes exactly the row stored under the i-th fresh id, and nothing else is staged. */
  lemma {:induction false} StagedItemsContent(orderId: Id, itemIds: seq<Id>, request: seq<LineRequest>, dishes: map<Id, Dish>)
    requires |itemIds| == |request| && Distinct(itemIds)
    ensures var m := StagedItems(orderId, itemIds, request, dishes);
      && (forall k :: k in m <==> k in itemIds)
      && (forall i :: 0 <= i < |itemIds| ==> m[itemIds[i]] == ItemFor(orderId, itemIds[i], request[i], dishes))
  {
    StagedItemsKeys(orderId, itemIds, request, dishes);
    forall i | 0 <= i < |itemIds|
      ensures StagedItems(orderId, itemIds, request, dishes)[itemIds[i]] == ItemFor(orderId, itemIds[i], request[i], dishes)
    {
      StagedItemAt(orderId, itemIds, request, dishes, i);
    }
  }

  /** The staged rows are stored under exactly the fresh ids. */
  lemma {:induction false} StagedItemsKeys(orderId: Id, itemIds: seq<Id>, request: seq<LineRequest>, dishes: map<Id, Dish>)
    requires |itemIds| == |request|
    ensures forall k :: k in StagedItems(orderId, itemIds, request, dishes) <==> k in itemIds
    decreases |request|
  {
    if request != [] {
      var n := |request| - 1;
      StagedItemsKeys(orderId, itemIds[..n], request[..n], dishes);
      assert forall k :: k in itemIds <==> k in itemIds[..n] || k == itemIds[n];
    }
  }

  /** Line i is staged under the i-th fresh id. */
  lemma {:induction false} StagedItemAt(orderId: Id, itemIds: seq<Id>, request: seq<LineRequest>, dishes: map<Id, Dish>, i: nat)
    requires |itemIds| == |request| && Distinct(itemIds) && i < |itemIds|
    ensures itemIds[i] in StagedItems(orderId, itemIds, request, dishes)
    ensures StagedItems(orderId, itemIds, request, dishes)[itemIds[i]] == ItemFor(orderId, itemIds[i], request[i], dishes)
    decreases |request|
  {
    var n := |request| - 1;
    if i < n {
      assert itemIds[i] != itemIds[n];
      StagedItemAt(orderId, itemIds[..n], request[..n], dishes, i);
    }
  }

  /** Every staged row is stored under its own id and belongs to the new order. */
  lemma {:induction false} StagedItemsOwned(orderId: Id, itemIds: seq<Id>, request: seq<LineRequest>, dishes: map<Id, Dish>)
    requires |itemIds| == |request|
    ensures forall k :: k in StagedItems(orderId, itemIds, request, dishes) ==>
      StagedItems(orderId, itemIds, request, dishes)[k].id == k &&
      StagedItems(orderId, itemIds, request, dishes)[k].orderId == orderId
    decreases |request|
  {
    if request != [] {
      var n := |request| - 1;
      StagedItemsOwned(orderId, itemIds[..n], request[..n], dishes);
      var m := StagedItems(orderId, itemIds, request, dishes);
      assert m == StagedItems(orderId, itemIds[..n], request[..n], dishes)[itemIds[n] := ItemFor(orderId, itemIds[n], request[n], dishes)];
    }
  }

  /** One more priced line extends the staged rows by that line's row. */
  lemma StagedStep(orderId: Id, itemIds: seq<Id>, request: seq<LineRequest>, dishes: map<Id, Dish>, i: nat)
    requires |itemIds| == |request| && i < |request| && request[i].dishId in dishes
    ensures StagedItems(orderId, itemIds[..i + 1], request[..i + 1], dishes)
         == StagedItems(orderId, itemIds[..i], request[..i], dishes)[itemIds[i] :=
              OrderItem(itemIds[i], orderId, request[i].dishId, request[i].quantity,
                        dishes[request[i].dishId].price * request[i].quantity)]
    ensures Sum(request[..i + 1], LinePrice(dishes)) == Sum(request[..i], LinePrice(dishes)) + dishes[request[i].dishId].price * request[i].quantity
  {
    assert itemIds[..i + 1][..i] == itemIds[..i] && request[..i + 1][..i] == request[..i];
    SumPrefix(request, i, LinePrice(dishes));
  }

  /** The first unknown dish is at i when every earlier one is known. */
  lemma FirstUnknownAt(request: seq<LineRequest>, dishes: map<Id, Dish>, i: nat)
    requires i < |request| && request[i].dishId !in dishes
    requires forall j :: 0 <= j < i ==> request[j].dishId in dishes
    ensures FirstUnknown(request, dishes) == Some(i)
  {
  }

  /** The header committed before any dish is checked (lines 47-50): total 0, no status. */
  function Header(orderId: Id, now: Timestamp): Order {
    Order(orderId, now, 0, None, None, None)
  }

  /** POST /order. The header is committed first; an unknown dish rolls back only the
      staged line items, so a failed request leaves an order with total 0 and no items. */
  method CreateOrder(db: Database, request: seq<LineRequest>, orderId: Id, itemIds: seq<Id>, now: Timestamp)
    returns (r: Result<Created, HttpError>)
    requires db.Valid()
    requires orderId !in db.orders
    requires |itemIds| == |request| && Distinct(itemIds)
    requires forall i :: 0 <= i < |itemIds| ==> itemIds[i] !in db.items
    modifies db
    ensures db.Valid()
    ensures db.categories == old(db.categories) && db.dishes == old(db.dishes)
    ensures FirstUnknown(request, db.dishes).Some? ==>
      && r == Failure(NotFound(request[FirstUnknown(request, db.dishes).value].dishId))
      && db.orders == old(db.orders)[orderId := Header(orderId, now)]
      && db.items == old(db.items)
    ensures FirstUnknown(request, db.dishes).None? ==>
      && r == Success(Created(orderId, Sum(request, LinePrice(db.dishes))))
      && db.orders == old(db.orders)[orderId := Header(orderId, now).(total := Sum(request, LinePrice(db.dishes)))]
      && db.items == old(db.items) + StagedItems(orderId, itemIds, request, db.dishes)
  {
    var categories, dishes, orders, items := db.categories, db.dishes, db.orders, db.items;
    var header := Header(orderId, now);
    var unknown, staged, total := StageLines(orderId, itemIds, request, dishes);
    if unknown.Some? {
      // db.rollback(): the staged rows are dropped, the committed header stays
      PutOrderConsistent(categories, dishes, orders, items, header);
      db.orders := orders[orderId := header];
      r := Failure(NotFound(request[unknown.value].dishId));
    } else {
      StagedItemsOwned(orderId, itemIds, request, dishes);
      var saved := header.(total := total);
      PutOrderConsistent(categories, dishes, orders, items, saved);
      AddItemsConsistent(categories, dishes, orders[orderId := saved], items, staged);
      db.orders, db.items := orders[orderId := saved], items + staged;
      r := Success(Created(orderId, total));
    }
  }

  /** The loop over the requested lines: looks each dish up, prices the line and
      stages its order_items row, stopping at the first dish that does not exist. */
  method StageLines(orderId: Id, itemIds: seq<Id>, request: seq<LineRequest>, dishes: map<Id, Dish>)
    returns (unknown: Option<nat>, staged: map<Id, OrderItem>, total: Money)
    requires |itemIds| == |request|
    ensures unknown == FirstUnknown(request, dishes)
    ensures unknown.None? ==> staged == StagedItems(orderId, itemIds, request, dishes)
    ensures unknown.None? ==> total == Sum(request, LinePrice(dishes))
  {
    total := 0;
    staged := map[];
    var i := 0;
    while i < |request|
      invariant 0 <= i <= |request|
      invariant forall j :: 0 <= j < i ==> request[j].dishId in dishes
      invariant staged == StagedItems(orderId, itemIds[..i], request[..i], dishes)
      invariant total == Sum(request[..i], LinePrice(dishes))
    {
      var line := request[i];
      if line.dishId !in dishes {
        FirstUnknownAt(request, dishes, i);
        return Some(i), staged, total;
      }
      var itemTotal := dishes[line.dishId].price * line.quantity;
      staged := staged[itemIds[i] := OrderItem(itemIds[i], orderId, line.dishId, line.quantity, itemTotal)];
      total := total + itemTotal;
      StagedStep(orderId, itemIds, request, dishes, i);
      i := i + 1;
    }
    assert itemIds[..i] == itemIds && request[..i] == request;
    unknown := None;
  }

  /** After a successful create, the new order owns exactly the staged rows, one per
      requested line. */
  lemma CreatedOrderOwnsItems(
    before: map<Id, OrderItem>, orders: map<Id, Order>, orderId: Id, itemIds: seq<Id>,
    request: seq<LineRequest>, dishes: map<Id, Dish>)
    requires |itemIds| == |request| && Distinct(itemIds)
    requires forall k :: k in before ==> before[k].orderId in orders
    requires orderId !in orders
    requires forall i :: 0 <= i < |itemIds| ==> itemIds[i] !in before
    ensures var after := before + StagedItems(orderId, itemIds, request, dishes);
      && (forall k :: k in after && after[k].orderId == orderId <==> k in itemIds)
      && ItemCount(after, orderId) == |request|
  {
    var staged := StagedItems(orderId, itemIds, request, dishes);
    StagedItemsKeys(orderId, itemIds, request, dishes);
    StagedItemsOwned(orderId, itemIds, request, dishes);
    OwnedAreStaged(before, orders, staged, orderId);
    assert staged.Keys == set i | 0 <= i < |itemIds| :: itemIds[i];
    DistinctCardinality(itemIds);
  }

  /** Once rows of an order the store does not hold yet are added, that order owns
      exactly the added rows. */
  lemma OwnedAreStaged(before: map<Id, OrderItem>, orders: map<Id, Order>, staged: map<Id, OrderItem>, orderId: Id)
    requires forall k :: k in before ==> before[k].orderId in orders
    requires orderId !in orders
    requires forall k :: k in staged ==> staged[k].orderId == orderId
    ensures forall k :: k in before + staged && (before + staged)[k].orderId == orderId <==> k in staged
    ensures (set k | k in before + staged && (before + staged)[k].orderId == orderId) == staged.Keys
  {
  }

  /** After a successful create, the order's stored total is the sum of its rows' item
      totals, each of which is the dish price times the quantity. */
  lemma CreatedOrderTotalIsSumOfItems(
    before: map<Id, OrderItem>, orderId: Id, itemIds: seq<Id>,
    request: seq<LineRequest>, dishes: map<Id, Dish>)
    requires |itemIds| == |request| && Distinct(itemIds)
    requires forall i :: 0 <= i < |request| ==> request[i].dishId in dishes
    ensures var after := before + StagedItems(orderId, itemIds, request, dishes);
      && (forall i :: 0 <= i < |itemIds| ==>
            (itemIds[i] in after && after[itemIds[i]].itemTotal == dishes[request[i].dishId].price * request[i].quantity))
      && Sum(Rows(after, itemIds), ItemTotal) == Sum(request, LinePrice(dishes))
  {
    var staged := StagedItems(orderId, itemIds, request, dishes);
    var after := before + staged;
    forall i | 0 <= i < |itemIds|
      ensures itemIds[i] in after && after[itemIds[i]] == ItemFor(orderId, itemIds[i], request[i], dishes)
    {
      StagedItemAt(orderId, itemIds, request, dishes, i);
    }
    var rows := Rows(after, itemIds);
    forall i | 0 <= i < |rows|
      ensures ItemTotal(rows[i]) == LinePrice(dishes)(request[i])
    {
      assert rows[i] == after[itemIds[i]];
    }
    SumPointwise(rows, ItemTotal, request, LinePrice(dishes));
  }

  /** The worked example: borscht at 120.50 twice and tea at 30.00 three times cost 331.00. */
  lemma BorschtAndTea(dishes: map<Id, Dish>)
    requires "borscht" in dishes && dishes["borscht"].price == 12050
    requires "tea" in dishes && dishes["tea"].price == 3000
    ensures Sum([LineRequest("borscht", 2), LineRequest("tea", 3)], LinePrice(dishes)) == 33100
  {
    var request := [LineRequest("borscht", 2), LineRequest("tea", 3)];
    assert request[..1] == [LineRequest("borscht", 2)];
    assert request[..1][..0] == [];
  }

  // ---------------------------------------------------------- today's orders

  /** One row of `/orders/today` and of the admin date listing. */
  datatype OrderSummary = OrderSummary(orderId: Id, date: Timestamp, total: Money, itemCount: nat)

  function OnDay(day: int): Order -> bool {
    (o: Order) => DayOf(o.date) == day
  }

  /** Sort key for `order_by(Order.order_date.desc())`. */
  function NewestFirst(o: Order): int { -o.date }

  /** Sorted newest first, the dates descend. */
  lemma NewestFirstDescends(s: seq<Order>)
    requires SortedBy(s, NewestFirst)
    ensures forall i, j :: 0 <= i < j < |s| ==> s[i].date >= s[j].date
  {
    forall i, j | 0 <= i < j < |s|
      ensures s[i].date >= s[j].date
    {
      assert NewestFirst(s[i]) <= NewestFirst(s[j]);
    }
  }

  function SummaryOf(o: Order, items: map<Id, OrderItem>): OrderSummary {
    OrderSummary(o.id, o.date, o.total, ItemCount(items, o.id))
  }

  /** GET /orders/today: the orders dated `today`, newest first, each with its item count. */
  method GetTodayOrders(db: Database, today: int, listing: seq<Id>) returns (result: seq<OrderSummary>)
    requires Lists(db.orders, listing)
    ensures var todays := SortBy(Filter(Rows(db.orders, listing), OnDay(today)), NewestFirst);
      && |result| == |todays|
      && (forall i :: 0 <= i < |result| ==> result[i] == SummaryOf(todays[i], db.items))
    ensures forall i :: 0 <= i < |result| ==> DayOf(result[i].date) == today
    ensures forall i, j :: 0 <= i < j < |result| ==> result[i].date >= result[j].date
  {
    var orders := SortBy(Filter(Rows(db.orders, listing), OnDay(today)), NewestFirst);
    SortedFilterKeeps(Rows(db.orders, listing), OnDay(today), NewestFirst);
    result := Summarize(orders, db.items);
  }

  /** The loop that shapes each fetched order into a summary with its item count. */
  method Summarize(orders: seq<Order>, items: map<Id, OrderItem>) returns (result: seq<OrderSummary>)
    ensures |result| == |orders|
    ensures forall i :: 0 <= i < |result| ==> result[i] == SummaryOf(orders[i], items)
  {
    result := [];
    for i := 0 to |orders|
      invariant |result| == i
      invariant forall j :: 0 <= j < i ==> result[j] == SummaryOf(orders[j], items)
    {
      var itemCount := ItemCount(items, orders[i].id);
      result := result + [OrderSummary(orders[i].id, orders[i].date, orders[i].total, itemCount)];
    }
  }

  /** Every order of the store dated today is in today's listing. */
  lemma TodayOrdersAllListed(orders: map<Id, Order>, listing: seq<Id>, today: int)
    requires Lists(orders, listing)
    ensures var todays := SortBy(Filter(Rows(orders, listing), OnDay(today)), NewestFirst);
      forall k :: k in orders && DayOf(orders[k].date) == today ==> orders[k] in todays
  {
    SortedFilterHasAll(orders, listing, OnDay(today), NewestFirst);
  }

  // ------------------------------------------------------------ order details

  datatype DetailLine = DetailLine(dishId: Id, dishName: string, quantity: int, pricePerItem: Money, itemTotal: Money)

  datatype OrderDetails = OrderDetails(orderId: Id, date: Timestamp, total: Money, lines: seq<DetailLine>)

  function DetailTotal(l: DetailLine): int { l.itemTotal }

  /** `OrderItem.join(Dish).filter(order_id == id)`: the order's items whose dish still exists. */
  function OfOrderWithDish(orderId: Id, dishes: map<Id, Dish>): OrderItem -> bool {
    (it: OrderItem) => it.orderId == orderId && it.dishId in dishes
  }

  function DetailOf(it: OrderItem, dishes: map<Id, Dish>): DetailLine {
    if it.dishId in dishes then DetailLine(it.dishId, dishes[it.dishId].name, it.quantity, dishes[it.dishId].price, it.itemTotal)
    else DetailLine(it.dishId, "Неизвестное блюдо", it.quantity, 0, it.itemTotal)
  }

  /** GET /orders/{id}: the total is recomputed as the sum of the stored item totals. The
      404 for an unknown order is caught by the blanket `except` and re-raised as 500. */
  method GetOrderDetails(db: Database, orderId: Id, itemListing: seq<Id>) returns (r: Result<OrderDetails, HttpError>)
    requires Lists(db.items, itemListing)
    ensures orderId !in db.orders <==> r == Failure(ServerError)
    ensures orderId in db.orders ==>
      var joined := Filter(Rows(db.items, itemListing), OfOrderWithDish(orderId, db.dishes));
      && r.Success?
      && r.value.orderId == orderId && r.value.date == db.orders[orderId].date
      && |r.value.lines| == |joined|
      && (forall i :: 0 <= i < |joined| ==> r.value.lines[i] == DetailOf(joined[i], db.dishes))
      && r.value.total == Sum(joined, ItemTotal)
      && r.value.total == Sum(r.value.lines, DetailTotal)
  {
    if orderId !in db.orders {
      // HTTPException(404) raised inside the try, re-raised by `except Exception` as 500
      return Failure(ServerError);
    }
    var order := db.orders[orderId];
    var joined := Filter(Rows(db.items, itemListing), OfOrderWithDish(orderId, db.dishes));
    var lines, total := DetailLines(joined, db.dishes);
    r := Success(OrderDetails(orderId, order.date, total, lines));
  }

  /** The loop of `get_order_details` over the joined rows: one detail line per row,
      and the running total of their item totals. */
  method DetailLines(joined: seq<OrderItem>, dishes: map<Id, Dish>) returns (lines: seq<DetailLine>, total: Money)
    ensures |lines| == |joined|
    ensures forall i :: 0 <= i < |joined| ==> lines[i] == DetailOf(joined[i], dishes)
    ensures total == Sum(joined, ItemTotal) && total == Sum(lines, DetailTotal)
  {
    lines := [];
    total := 0;
    for i := 0 to |joined|
      invariant |lines| == i
      invariant forall j :: 0 <= j < i ==> lines[j] == DetailOf(joined[j], dishes)
      invariant total == Sum(joined[..i], ItemTotal)
      invariant total == Sum(lines, DetailTotal)
    {
      var line := DetailOf(joined[i], dishes);
      SumPrefix(joined, i, ItemTotal);
      assert (lines + [line])[..i] == lines;
      lines := lines + [line];
      total := total + joined[i].itemTotal;
    }
    assert joined[..|joined|] == joined;
  }
}
