/** The order service of the service-layer variant
    (backend/src/services/order_service.py): creation with client-supplied line
    totals and an availability check of every dish before any write, the
    filtered listing, partial update, the cascading delete and the statistics
    over a period. */
module OrderService {
  import opened Seqs
  import opened Store
  import opened Grouping
  import ApiCashier

  const Pending: string := "pending"
  const Completed: string := "completed"

  // ----------------------------------------------------------------- create

  /** One item of the service variant's order request: the client supplies the line total. */
  datatype ItemRequest = ItemRequest(dishId: Id, quantity: int, itemTotal: Money)

  /** The order request: its items, the optional customer fields, and a status that creation ignores. */
  datatype OrderRequest = OrderRequest(items: seq<ItemRequest>, customerName: Option<string>,
                                       customerPhone: Option<string>, status: Option<string>)

  /** The ValueError raised by creation, naming the dish that cannot be ordered. */
  datatype OrderError = DishNotAvailable(dishId: Id)

  /** `Dish.id == dish_id and Dish.is_available == True` finds a row. */
  predicate Orderable(dishes: map<Id, Dish>, dishId: Id) {
    dishId in dishes && dishes[dishId].available
  }

  function RequestTotal(l: ItemRequest): int { l.itemTotal }

  /** The row created for one requested item under the new order. */
  function ItemRow(orderId: Id, itemId: Id, l: ItemRequest): OrderItem {
    OrderItem(itemId, orderId, l.dishId, l.quantity, l.itemTotal)
  }

  /** The validation loop (lines 34-41): the first item whose dish is missing or
      not available, or None when every dish can be ordered. */
  method FindUnavailable(items: seq<ItemRequest>, dishes: map<Id, Dish>) returns (bad: Option<nat>)
    ensures bad.None? <==> forall i :: 0 <= i < |items| ==> Orderable(dishes, items[i].dishId)
    ensures bad.Some? ==>
      && bad.value < |items|
      && !Orderable(dishes, items[bad.value].dishId)
      && forall i :: 0 <= i < bad.value ==> Orderable(dishes, items[i].dishId)
  {
    for i := 0 to |items|
      invariant forall j :: 0 <= j < i ==> Orderable(dishes, items[j].dishId)
    {
      var dishId := items[i].dishId;
      if !(dishId in dishes && dishes[dishId].available) {
        return Some(i);
      }
    }
    return None;
  }

  /** The insertion loop (lines 58-67): one row per requested item, under its own fresh id. */
  method ItemRows(orderId: Id, itemIds: seq<Id>, items: seq<ItemRequest>) returns (rows: map<Id, OrderItem>)
    requires |itemIds| == |items| && Distinct(itemIds)
    ensures forall k :: k in rows <==> k in itemIds
    ensures forall i :: 0 <= i < |items| ==> rows[itemIds[i]] == ItemRow(orderId, itemIds[i], items[i])
  {
    rows := map[];
    for i := 0 to |items|
      invariant forall k :: k in rows <==> k in itemIds[..i]
      invariant forall j :: 0 <= j < i ==> rows[itemIds[j]] == ItemRow(orderId, itemIds[j], items[j])
    {
      assert itemIds[..i + 1] == itemIds[..i] + [itemIds[i]];
      rows := rows[itemIds[i] := OrderItem(itemIds[i], orderId, items[i].dishId, items[i].quantity, items[i].itemTotal)];
    }
    assert itemIds[..|items|] == itemIds;
  }

  /** `create_order`: every dish is checked before anything is written, so a
      missing or unavailable dish changes nothing. Otherwise the order is stored
      with status "pending" (whatever the request says) and the client's line
      totals summed as its total, and one row per requested item. */
  method CreateOrder(db: Database, request: OrderRequest, orderId: Id, itemIds: seq<Id>, now: Timestamp)
    returns (r: Result<Order, OrderError>)
    requires db.Valid()
    requires orderId !in db.orders
    requires |itemIds| == |request.items| && Distinct(itemIds)
    requires forall i :: 0 <= i < |itemIds| ==> itemIds[i] !in db.items
    modifies db
    ensures db.Valid()
    ensures db.categories == old(db.categories) && db.dishes == old(db.dishes)
    ensures r.Failure? <==> exists i :: 0 <= i < |request.items| && !Orderable(db.dishes, request.items[i].dishId)
    ensures r.Failure? ==>
      && db.orders == old(db.orders) && db.items == old(db.items)
      && exists i ::
           && 0 <= i < |request.items|
           && r.error == DishNotAvailable(request.items[i].dishId)
           && !Orderable(db.dishes, request.items[i].dishId)
           && forall j :: 0 <= j < i ==> Orderable(db.dishes, request.items[j].dishId)
    ensures r.Success? ==>
      && r.value == Order(orderId, now, Sum(request.items, RequestTotal), Some(Pending),
                          request.customerName, request.customerPhone)
      && db.orders == old(db.orders)[orderId := r.value]
      && (forall k :: k in db.items <==> k in old(db.items) || k in itemIds)
      && (forall k :: k in old(db.items) ==> db.items[k] == old(db.items)[k])
      && (forall i :: 0 <= i < |itemIds| ==> db.items[itemIds[i]] == ItemRow(orderId, itemIds[i], request.items[i]))
  {
    var categories, dishes, orders, items := db.categories, db.dishes, db.orders, db.items;
    var bad := FindUnavailable(request.items, dishes);
    if bad.Some? {
      return Failure(DishNotAvailable(request.items[bad.value].dishId));
    }
    var order := Order(orderId, now, Sum(request.items, RequestTotal), Some(Pending),
                       request.customerName, request.customerPhone);
    var rows := ItemRows(orderId, itemIds, request.items);
    PutOrderConsistent(categories, dishes, orders, items, order);
    AddItemsConsistent(categories, dishes, orders[orderId := order], items, rows);
    db.orders, db.items := orders[orderId := order], items + rows;
    r := Success(order);
  }

  /** After a successful create the new order owns exactly the rows of the new item
      ids, one per requested item. */
  lemma CreatedItemsCount(before: map<Id, OrderItem>, orders: map<Id, Order>, after: map<Id, OrderItem>,
                          orderId: Id, itemIds: seq<Id>, items: seq<ItemRequest>)
    requires |itemIds| == |items| && Distinct(itemIds)
    requires forall k :: k in before ==> before[k].orderId in orders
    requires orderId !in orders
    requires forall k :: k in after <==> k in before || k in itemIds
    requires forall k :: k in before ==> after[k] == before[k]
    requires forall i :: 0 <= i < |itemIds| ==> after[itemIds[i]] == ItemRow(orderId, itemIds[i], items[i])
    ensures forall k :: k in after && after[k].orderId == orderId <==> k in itemIds
    ensures ItemCount(after, orderId) == |items|
  {
    var owned := set k | k in after && after[k].orderId == orderId;
    var listed := set i | 0 <= i < |itemIds| :: itemIds[i];
    forall k | k in after && after[k].orderId == orderId
      ensures k in listed
    {
      assert k !in before;
      var i :| 0 <= i < |itemIds| && itemIds[i] == k;
    }
    assert owned == listed;
    DistinctCardinality(itemIds);
  }

  /** After a successful create the new order's total is the sum of its rows' item totals. */
  lemma CreatedItemsMatchTotal(after: map<Id, OrderItem>, orderId: Id, itemIds: seq<Id>, items: seq<ItemRequest>)
    requires |itemIds| == |items|
    requires forall i :: 0 <= i < |itemIds| ==>
      itemIds[i] in after && after[itemIds[i]] == ItemRow(orderId, itemIds[i], items[i])
    ensures Sum(Rows(after, itemIds), ItemTotal) == Sum(items, RequestTotal)
  {
    SumPointwise(Rows(after, itemIds), ItemTotal, items, RequestTotal);
  }

  /** The stored total is the client's figure, not the dish price times the
      quantity: tea at 30.00 ordered twice with a claimed line total of 0.01. */
  lemma TotalTrustsClient(dishes: map<Id, Dish>)
    requires "tea" in dishes && dishes["tea"].price == 3000
    ensures Sum([ItemRequest("tea", 2, 1)], RequestTotal) == 1
    ensures Sum([ApiCashier.LineRequest("tea", 2)], ApiCashier.LinePrice(dishes)) == 6000
  {
    assert [ItemRequest("tea", 2, 1)][..0] == [];
    assert [ApiCashier.LineRequest("tea", 2)][..0] == [];
  }

  // ------------------------------------------------------------------ listing

  /** The filters of `get_orders`: `if status:` skips a missing or empty status; a
      given `date_from` keeps the orders from that date's midnight on. */
  function Listed(status: Option<string>, dateFrom: Option<int>): Order -> bool {
    (o: Order) =>
      && (status.None? || status.value == "" || o.status == status)
      && (dateFrom.None? || o.date >= Midnight(dateFrom.value))
  }

  /** The stored orders passing the filters of `get_orders`, newest first. */
  function Matching(orders: map<Id, Order>, listing: seq<Id>, status: Option<string>, dateFrom: Option<int>)
    : seq<Order>
    requires Lists(orders, listing)
  {
    SortBy(Filter(Rows(orders, listing), Listed(status, dateFrom)), ApiCashier.NewestFirst)
  }

  /** `get_orders`: the orders passing the filters, newest first, then rows [skip, skip + limit). */
  function GetOrders(orders: map<Id, Order>, listing: seq<Id>, skip: nat, limit: nat,
                     status: Option<string>, dateFrom: Option<int>): (r: seq<Order>)
    requires Lists(orders, listing)
    ensures |r| == Max(0, Min(|Matching(orders, listing, status, dateFrom)|, skip + limit) - skip)
    ensures forall i :: 0 <= i < |r| ==>
      skip + i < |Matching(orders, listing, status, dateFrom)| && r[i] == Matching(orders, listing, status, dateFrom)[skip + i]
    ensures |r| <= limit
    ensures forall i :: 0 <= i < |r| ==> r[i] in orders.Values
    ensures forall i :: 0 <= i < |r| ==> Listed(status, dateFrom)(r[i])
    ensures forall i, j :: 0 <= i < j < |r| ==> r[i].date >= r[j].date
  {
    var matching := Matching(orders, listing, status, dateFrom);
    NewestFirstMatching(orders, listing, Listed(status, dateFrom), matching);
    Window(matching, skip, limit)
  }

  /** The matching orders, newest first, are stored orders that pass the filter, dated in descending order. */
  lemma NewestFirstMatching(orders: map<Id, Order>, listing: seq<Id>, p: Order -> bool, matching: seq<Order>)
    requires Lists(orders, listing)
    requires matching == SortBy(Filter(Rows(orders, listing), p), ApiCashier.NewestFirst)
    ensures forall i :: 0 <= i < |matching| ==> matching[i] in orders.Values
    ensures forall i :: 0 <= i < |matching| ==> p(matching[i])
    ensures forall i, j :: 0 <= i < j < |matching| ==> matching[i].date >= matching[j].date
  {
    SortedFilterKeeps(Rows(orders, listing), p, ApiCashier.NewestFirst);
    MatchingAreStored(orders, listing, p, matching);
    ApiCashier.NewestFirstDescends(matching);
  }

  /** The matching orders are rows of the store. */
  lemma MatchingAreStored(orders: map<Id, Order>, listing: seq<Id>, p: Order -> bool, matching: seq<Order>)
    requires Lists(orders, listing)
    requires matching == SortBy(Filter(Rows(orders, listing), p), ApiCashier.NewestFirst)
    ensures forall i :: 0 <= i < |matching| ==> matching[i] in orders.Values
  {
    var rows := Rows(orders, listing);
    SortByMembers(Filter(rows, p), ApiCashier.NewestFirst);
    RowsAreStored(orders, listing);
  }

  /** `date_from` compares a timestamp with a date's midnight, which is the same
      as comparing calendar dates. */
  lemma DateFromIsCalendarDate(o: Order, d: int)
    ensures Listed(None, Some(d))(o) <==> DayOf(o.date) >= d
  {
    DayOfBounds(o.date, DayOf(o.date));
  }

  /** Pages follow one another: the page of `a` rows at `skip` and the page of `b`
      rows after it make up the page of `a + b` rows at `skip`. */
  lemma PagesJoin(orders: map<Id, Order>, listing: seq<Id>, skip: nat, a: nat, b: nat,
                  status: Option<string>, dateFrom: Option<int>)
    requires Lists(orders, listing)
    ensures GetOrders(orders, listing, skip, a, status, dateFrom) + GetOrders(orders, listing, skip + a, b, status, dateFrom)
         == GetOrders(orders, listing, skip, a + b, status, dateFrom)
  {
    var matching := SortBy(Filter(Rows(orders, listing), Listed(status, dateFrom)), ApiCashier.NewestFirst);
    WindowSplit(matching, skip, a, b);
  }

  /** A first page at least as long as the number of matching orders holds every stored order that matches. */
  lemma FirstPageHasAll(orders: map<Id, Order>, listing: seq<Id>, limit: nat,
                        status: Option<string>, dateFrom: Option<int>)
    requires Lists(orders, listing)
    requires limit >= |KeysWhere(orders, Listed(status, dateFrom))|
    ensures forall k :: k in orders && Listed(status, dateFrom)(orders[k]) ==>
      orders[k] in GetOrders(orders, listing, 0, limit, status, dateFrom)
  {
    var rows := Rows(orders, listing);
    var matching := SortBy(Filter(rows, Listed(status, dateFrom)), ApiCashier.NewestFirst);
    ListedCount(orders, listing, Listed(status, dateFrom));
    SortedFilterHasAll(orders, listing, Listed(status, dateFrom), ApiCashier.NewestFirst);
    assert Window(matching, 0, limit) == matching;
  }

  // ------------------------------------------------------------------ update

  /** The update request with `exclude_unset`: None for a field the request does not
      set; Some(v) for one it sets, where v may itself be null. */
  datatype OrderUpdate = OrderUpdate(status: Option<Option<string>>, customerName: Option<Option<string>>,
                                     customerPhone: Option<Option<string>>)

  /** The order after `setattr` of every field the update sets. */
  function Updated(o: Order, u: OrderUpdate): (r: Order)
    ensures r.id == o.id && r.date == o.date && r.total == o.total
  {
    o.(status := if u.status.Some? then u.status.value else o.status,
       customerName := if u.customerName.Some? then u.customerName.value else o.customerName,
       customerPhone := if u.customerPhone.Some? then u.customerPhone.value else o.customerPhone)
  }

  /** A field the update leaves unset keeps its value; one it sets takes the new value, null included. */
  lemma UpdatedFields(o: Order, u: OrderUpdate)
    ensures u.status.None? ==> Updated(o, u).status == o.status
    ensures u.status.Some? ==> Updated(o, u).status == u.status.value
    ensures u.customerName.None? ==> Updated(o, u).customerName == o.customerName
    ensures u.customerName.Some? ==> Updated(o, u).customerName == u.customerName.value
    ensures u.customerPhone.None? ==> Updated(o, u).customerPhone == o.customerPhone
    ensures u.customerPhone.Some? ==> Updated(o, u).customerPhone == u.customerPhone.value
  {
  }

  /** Applying the same update twice is applying it once, and an update that sets nothing changes nothing. */
  lemma UpdatedIdempotent(o: Order, u: OrderUpdate)
    ensures Updated(Updated(o, u), u) == Updated(o, u)
    ensures Updated(o, OrderUpdate(None, None, None)) == o
  {
  }

  /** `update_order`: None and no change for an unknown id; otherwise each field the
      request sets is written in turn and the updated order is returned. */
  method UpdateOrder(db: Database, orderId: Id, u: OrderUpdate) returns (r: Option<Order>)
    requires db.Valid()
    modifies db
    ensures db.Valid()
    ensures db.categories == old(db.categories) && db.dishes == old(db.dishes) && db.items == old(db.items)
    ensures orderId !in old(db.orders) ==> r.None? && db.orders == old(db.orders)
    ensures orderId in old(db.orders) ==>
      && r == Some(Updated(old(db.orders)[orderId], u))
      && db.orders == old(db.orders)[orderId := r.value]
  {
    if orderId !in db.orders {
      return None;
    }
    var order := db.orders[orderId];
    if u.status.Some? {
      order := order.(status := u.status.value);
    }
    if u.customerName.Some? {
      order := order.(customerName := u.customerName.value);
    }
    if u.customerPhone.Some? {
      order := order.(customerPhone := u.customerPhone.value);
    }
    db.orders := db.orders[orderId := order];
    r := Some(order);
  }

  // ------------------------------------------------------------------ delete

  /** The order_items rows left when deleting an order removes its own rows too: the
      model assumes an effective ON DELETE CASCADE from order_items to orders. */
  function Cascade(items: map<Id, OrderItem>, orderId: Id): (r: map<Id, OrderItem>)
    ensures forall k :: k in r <==> k in items && items[k].orderId != orderId
    ensures forall k :: k in r ==> r[k] == items[k]
  {
    map k | k in items && items[k].orderId != orderId :: items[k]
  }

  /** After the cascade no row belongs to the deleted order, and every other order keeps all its rows. */
  lemma CascadeRemovesOnlyThatOrder(items: map<Id, OrderItem>, orderId: Id, other: Id)
    requires other != orderId
    ensures ItemCount(Cascade(items, orderId), orderId) == 0
    ensures ItemCount(Cascade(items, orderId), other) == ItemCount(items, other)
  {
    var after := Cascade(items, orderId);
    assert (set k | k in after && after[k].orderId == orderId) == {};
    assert (set k | k in after && after[k].orderId == other) == set k | k in items && items[k].orderId == other;
  }

  /** `delete_order`: None and no change for an unknown id; otherwise the order is
      removed and returned, and its line items go with it under the assumed cascade. */
  method DeleteOrder(db: Database, orderId: Id) returns (r: Option<Order>)
    requires db.Valid()
    modifies db
    ensures db.Valid()
    ensures db.categories == old(db.categories) && db.dishes == old(db.dishes)
    ensures orderId !in old(db.orders) ==> r.None? && db.orders == old(db.orders) && db.items == old(db.items)
    ensures orderId in old(db.orders) ==>
      && r == Some(old(db.orders)[orderId])
      && db.orders == old(db.orders) - {orderId}
      && db.items == Cascade(old(db.items), orderId)
  {
    if orderId !in db.orders {
      return None;
    }
    r := Some(db.orders[orderId]);
    db.orders, db.items := db.orders - {orderId}, Cascade(db.items, orderId);
  }

  // -------------------------------------------------------------- statistics

  /** `start_date <= order_date <= end_date` as written: the bounds are dates, so the
      end bound is the end date's midnight and that day's later orders fall outside. */
  function InWindowAsWritten(start: int, end: int): Order -> bool {
    (o: Order) => Midnight(start) <= o.date <= Midnight(end)
  }

  /** The period [start, end] of calendar dates, end date included. */
  function InPeriod(start: int, end: int): Order -> bool {
    (o: Order) => start <= DayOf(o.date) <= end
  }

  /** An order at 10:00 on the end date lies in the period but outside the window as written. */
  lemma EndDateDropped(o: Order, start: int, end: int)
    requires start <= end && o.date == Midnight(end) + 600
    ensures InPeriod(start, end)(o)
    ensures !InWindowAsWritten(start, end)(o)
  {
    DayOfBounds(o.date, end);
  }

  /** The period holds every timestamp from the start date's midnight up to, not
      including, the midnight after the end date, and the window as written lies inside it. */
  lemma InPeriodBounds(o: Order, start: int, end: int)
    ensures InPeriod(start, end)(o) <==> Midnight(start) <= o.date < Midnight(end + 1)
    ensures InWindowAsWritten(start, end)(o) ==> InPeriod(start, end)(o)
  {
    DayOfBounds(o.date, DayOf(o.date));
  }

  /** `status == 'completed'` and `start_date <= order_date <= end_date`, the filter as written. */
  function CompletedInWindow(start: int, end: int): Order -> bool {
    (o: Order) => o.status == Some(Completed) && InWindowAsWritten(start, end)(o)
  }

  /** The completed orders of the period [start, end] of calendar dates, end date included. */
  function CompletedIn(start: int, end: int): Order -> bool {
    (o: Order) => o.status == Some(Completed) && InPeriod(start, end)(o)
  }

  /** The statistics of a period: COUNT, SUM and AVG of the totals, each 0 when no order qualifies. */
  datatype OrderStatistics = OrderStatistics(totalOrders: nat, totalRevenue: Money, avgOrderValue: real)

  /** COUNT, SUM and AVG of the totals of the counted orders, `or 0` on an empty set. */
  function StatisticsOf(counted: seq<Order>): (r: OrderStatistics)
    ensures r.totalOrders == |counted|
    ensures r.totalRevenue == Sum(counted, OrderTotal)
    ensures r.avgOrderValue == Average(r.totalRevenue, r.totalOrders)
    ensures r.totalOrders == 0 ==> r.totalRevenue == 0 && r.avgOrderValue == 0.0
  {
    OrderStatistics(|counted|, Sum(counted, OrderTotal), Average(Sum(counted, OrderTotal), |counted|))
  }

  /** `get_order_statistics` over the completed orders of the window as written: an order
      of the end date counts only when it was placed at midnight. */
  function GetOrderStatistics(orders: map<Id, Order>, listing: seq<Id>, start: int, end: int): (r: OrderStatistics)
    requires Lists(orders, listing)
    ensures r.totalOrders == |KeysWhere(orders, CompletedInWindow(start, end))|
    ensures r.totalRevenue == Sum(Filter(Rows(orders, listing), CompletedInWindow(start, end)), OrderTotal)
    ensures r.totalOrders == 0 ==> r.totalRevenue == 0 && r.avgOrderValue == 0.0
    ensures r.avgOrderValue == Average(r.totalRevenue, r.totalOrders)
  {
    ListedCount(orders, listing, CompletedInWindow(start, end));
    StatisticsOf(Filter(Rows(orders, listing), CompletedInWindow(start, end)))
  }

  /** The statistics as intended: every completed order of the end date counts. */
  function GetOrderStatisticsThroughEndDate(orders: map<Id, Order>, listing: seq<Id>, start: int, end: int)
    : (r: OrderStatistics)
    requires Lists(orders, listing)
    ensures r.totalOrders == |KeysWhere(orders, CompletedIn(start, end))|
    ensures r.totalRevenue == Sum(Filter(Rows(orders, listing), CompletedIn(start, end)), OrderTotal)
    ensures r.totalOrders == 0 ==> r.totalRevenue == 0 && r.avgOrderValue == 0.0
    ensures r.avgOrderValue == Average(r.totalRevenue, r.totalOrders)
  {
    ListedCount(orders, listing, CompletedIn(start, end));
    StatisticsOf(Filter(Rows(orders, listing), CompletedIn(start, end)))
  }

  /** A single completed order placed at 10:00 on the end date is missed by the statistics
      as written and counted by the corrected ones. */
  lemma StatisticsMissEndDay(o: Order, start: int, end: int)
    requires start <= end && o.status == Some(Completed) && o.date == Midnight(end) + 600
    ensures GetOrderStatistics(map[o.id := o], [o.id], start, end).totalOrders == 0
    ensures GetOrderStatisticsThroughEndDate(map[o.id := o], [o.id], start, end).totalOrders == 1
    ensures GetOrderStatisticsThroughEndDate(map[o.id := o], [o.id], start, end).totalRevenue == o.total
  {
    var orders := map[o.id := o];
    EndDateDropped(o, start, end);
    assert KeysWhere(orders, CompletedInWindow(start, end)) == {};
    assert KeysWhere(orders, CompletedIn(start, end)) == {o.id};
    assert Filter(Rows(orders, [o.id]), CompletedIn(start, end)) == [o];
  }

  /** The average lies between the smallest and the largest total of the counted orders. */
  lemma StatisticsBounds(orders: map<Id, Order>, listing: seq<Id>, start: int, end: int, lo: int, hi: int)
    requires Lists(orders, listing)
    requires forall k :: k in orders && CompletedInWindow(start, end)(orders[k]) ==> lo <= orders[k].total <= hi
    ensures var r := GetOrderStatistics(orders, listing, start, end);
      r.totalOrders > 0 ==> lo as real <= r.avgOrderValue <= hi as real
  {
    var counted := Filter(Rows(orders, listing), CompletedInWindow(start, end));
    if |counted| > 0 {
      forall i | 0 <= i < |counted|
        ensures lo <= OrderTotal(counted[i]) <= hi
      {
        assert counted[i] in Rows(orders, listing);
      }
      AverageWithinBounds(counted, OrderTotal, lo, hi);
    }
  }
}
