/** The cashier router of the service-layer variant
    (backend/src/routers/cashier.py): the quick sale with its receipt number, and
    today's sales with their hourly buckets. */
module CashierRouter {
  import opened Seqs
  import opened Store
  import opened Grouping
  import OrderService

  // ------------------------------------------------------------- quick sale

  const QuickSaleCustomer: string := "Кассовый чек"
  const ReceiptPrefix: string := "ЧЕК-"
  const ReceiptIdLength: nat := 8

  /** The response of a quick sale. */
  datatype QuickSale = QuickSale(orderId: Id, receiptNumber: string, totalAmount: Money, createdAt: Timestamp)

  /** `str.upper()` on one character, for the Latin and Russian alphabets. */
  function UpperChar(c: char): char {
    if 'a' <= c <= 'z' then (c as int - 32) as char
    else if 'а' <= c <= 'я' then (c as int - 32) as char
    else if c == 'ё' then 'Ё'
    else c
  }

  /** `str.upper()`, character by character. */
  function Upper(s: string): (r: string)
    ensures |r| == |s|
    ensures forall i :: 0 <= i < |s| ==> r[i] == UpperChar(s[i])
  {
    seq(|s|, i requires 0 <= i < |s| => UpperChar(s[i]))
  }

  /** Upper-casing twice is upper-casing once. */
  lemma UpperIdempotent(s: string)
    ensures Upper(Upper(s)) == Upper(s)
  {
    forall i | 0 <= i < |s|
      ensures Upper(Upper(s))[i] == Upper(s)[i]
    {
      var c := s[i];
      if 'a' <= c <= 'z' {
        assert 'A' <= UpperChar(c) <= 'Z';
      } else if 'а' <= c <= 'я' {
        assert 'А' <= UpperChar(c) <= 'Я';
      }
    }
  }

  /** `f"ЧЕК-{order_id[:8].upper()}"`. */
  function ReceiptNumber(orderId: Id): (r: string)
    ensures |r| == |ReceiptPrefix| + Min(|orderId|, ReceiptIdLength)
    ensures r[..|ReceiptPrefix|] == ReceiptPrefix
    ensures forall i :: 0 <= i < Min(|orderId|, ReceiptIdLength) ==> r[|ReceiptPrefix| + i] == UpperChar(orderId[i])
  {
    ReceiptPrefix + Upper(Take(orderId, ReceiptIdLength))
  }

  /** The receipt number shows only the first eight characters of the id, so two
      orders whose ids agree there, up to case, share a receipt number. */
  lemma ReceiptsShareFirstEight(a: Id, b: Id)
    requires |a| >= ReceiptIdLength && |b| >= ReceiptIdLength
    requires forall i :: 0 <= i < ReceiptIdLength ==> UpperChar(a[i]) == UpperChar(b[i])
    ensures ReceiptNumber(a) == ReceiptNumber(b)
  {
    assert Upper(Take(a, ReceiptIdLength)) == Upper(Take(b, ReceiptIdLength));
  }

  /** The request as the quick sale rewrites it (lines 25-27) before creating the order. */
  function QuickSaleRequest(request: OrderService.OrderRequest): (r: OrderService.OrderRequest)
    ensures r.items == request.items
  {
    request.(customerName := Some(QuickSaleCustomer), customerPhone := None, status := Some(OrderService.Completed))
  }

  /** POST /cashier/quick-sale: the order is created from the rewritten request; a dish
      that cannot be ordered gives 400 and changes nothing. The stored order has status
      "pending": creation ignores the "completed" the router writes into the request. */
  method CreateQuickSale(db: Database, request: OrderService.OrderRequest, orderId: Id, itemIds: seq<Id>,
                         now: Timestamp)
    returns (r: Result<QuickSale, HttpError>)
    requires db.Valid()
    requires orderId !in db.orders
    requires |itemIds| == |request.items| && Distinct(itemIds)
    requires forall i :: 0 <= i < |itemIds| ==> itemIds[i] !in db.items
    modifies db
    ensures db.Valid()
    ensures db.categories == old(db.categories) && db.dishes == old(db.dishes)
    ensures r.Failure? <==>
      exists i :: 0 <= i < |request.items| && !OrderService.Orderable(db.dishes, request.items[i].dishId)
    ensures r.Failure? ==>
      && db.orders == old(db.orders) && db.items == old(db.items)
      && exists i ::
           && 0 <= i < |request.items|
           && r.error == BadRequest(request.items[i].dishId)
           && !OrderService.Orderable(db.dishes, request.items[i].dishId)
           && forall j :: 0 <= j < i ==> OrderService.Orderable(db.dishes, request.items[j].dishId)
    ensures r.Success? ==>
      var total := Sum(request.items, OrderService.RequestTotal);
      && r.value == QuickSale(orderId, ReceiptNumber(orderId), total, now)
      && db.orders == old(db.orders)[orderId := Order(orderId, now, total, Some(OrderService.Pending),
                                                       Some(QuickSaleCustomer), None)]
      && (forall k :: k in db.items <==> k in old(db.items) || k in itemIds)
      && (forall k :: k in old(db.items) ==> db.items[k] == old(db.items)[k])
      && (forall i :: 0 <= i < |itemIds| ==>
            itemIds[i] in db.items && db.items[itemIds[i]] == OrderService.ItemRow(orderId, itemIds[i], request.items[i]))
  {
    var created := OrderService.CreateOrder(db, QuickSaleRequest(request), orderId, itemIds, now);
    match created
    case Failure(DishNotAvailable(dishId)) =>
      // ValueError -> HTTPException(400)
      r := Failure(BadRequest(dishId));
    case Success(order) =>
      r := Success(QuickSale(order.id, ReceiptNumber(order.id), order.total, order.date));
  }

  /** A pending order never passes the status filter of today's sales. */
  lemma PendingNotInTodaySales(o: Order, today: int)
    requires o.status == Some(OrderService.Pending)
    ensures !OrderService.Listed(Some(OrderService.Completed), Some(today))(o)
    ensures !OrderService.CompletedInWindow(today, today)(o)
    ensures !OrderService.CompletedIn(today, today)(o)
  {
    assert OrderService.Pending[0] != OrderService.Completed[0];
    assert o.status != Some(OrderService.Completed);
  }

  /** The quick sale as its comment intends: the order is created, then marked
      completed, so it counts in today's sales and in the reports. */
  method CreateCompletedQuickSale(db: Database, request: OrderService.OrderRequest, orderId: Id,
                                  itemIds: seq<Id>, now: Timestamp)
    returns (r: Result<QuickSale, HttpError>)
    requires db.Valid()
    requires orderId !in db.orders
    requires |itemIds| == |request.items| && Distinct(itemIds)
    requires forall i :: 0 <= i < |itemIds| ==> itemIds[i] !in db.items
    modifies db
    ensures db.Valid()
    ensures db.categories == old(db.categories) && db.dishes == old(db.dishes)
    ensures r.Failure? <==>
      exists i :: 0 <= i < |request.items| && !OrderService.Orderable(db.dishes, request.items[i].dishId)
    ensures r.Failure? ==>
      && db.orders == old(db.orders) && db.items == old(db.items)
      && exists i ::
           && 0 <= i < |request.items|
           && r.error == BadRequest(request.items[i].dishId)
           && !OrderService.Orderable(db.dishes, request.items[i].dishId)
           && forall j :: 0 <= j < i ==> OrderService.Orderable(db.dishes, request.items[j].dishId)
    ensures r.Success? ==>
      var total := Sum(request.items, OrderService.RequestTotal);
      && r.value == QuickSale(orderId, ReceiptNumber(orderId), total, now)
      && db.orders == old(db.orders)[orderId := Order(orderId, now, total, Some(OrderService.Completed),
                                                       Some(QuickSaleCustomer), None)]
      && (forall k :: k in db.items <==> k in old(db.items) || k in itemIds)
      && (forall k :: k in old(db.items) ==> db.items[k] == old(db.items)[k])
      && (forall i :: 0 <= i < |itemIds| ==>
            itemIds[i] in db.items && db.items[itemIds[i]] == OrderService.ItemRow(orderId, itemIds[i], request.items[i]))
  {
    var created := OrderService.CreateOrder(db, QuickSaleRequest(request), orderId, itemIds, now);
    match created
    case Failure(DishNotAvailable(dishId)) =>
      r := Failure(BadRequest(dishId));
    case Success(order) =>
      var updated := OrderService.UpdateOrder(db, order.id, OrderService.OrderUpdate(Some(Some(OrderService.Completed)), None, None));
      r := Success(QuickSale(order.id, ReceiptNumber(order.id), order.total, order.date));
  }

  /** A completed order placed today passes the filter of today's sales. */
  lemma CompletedCountsToday(o: Order, today: int)
    requires o.status == Some(OrderService.Completed) && DayOf(o.date) == today
    ensures OrderService.Listed(Some(OrderService.Completed), Some(today))(o)
    ensures OrderService.CompletedIn(today, today)(o)
  {
    DayOfBounds(o.date, today);
    assert OrderService.InPeriod(today, today)(o);
  }

  // ------------------------------------------------------------ today's sales

  /** The response of GET /cashier/today-sales. */
  datatype TodaySales = TodaySales(date: int, totalSales: nat, totalRevenue: Money,
                                   hourlySales: map<int, Money>, orders: seq<Order>)

  const FetchLimit: nat := 100
  const ShownOrders: nat := 10

  /** `order_date.hour`. */
  function OrderHour(o: Order): int { HourOf(o.date) }

  /** The loop of lines 63-66: each order's total added to the bucket of its hour. */
  method HourlySales(orders: seq<Order>) returns (hourly: map<int, Money>)
    ensures Tallies(hourly, orders, OrderHour, OrderTotal)
    ensures forall h :: h in hourly ==> 0 <= h < 24
  {
    hourly := map[];
    TalliesNothing(orders, OrderHour, OrderTotal);
    for i := 0 to |orders|
      invariant Tallies(hourly, orders[..i], OrderHour, OrderTotal)
      invariant forall h :: h in hourly ==> 0 <= h < 24
    {
      var hour, total := OrderHour(orders[i]), OrderTotal(orders[i]);
      HourInRange(orders[i].date);
      var before := hourly;
      hourly := hourly[hour := BucketOf(hourly)(hour) + total];
      TalliesStep(before, hourly, orders, OrderHour, OrderTotal, i, hour, total);
    }
    assert orders[..|orders|] == orders;
  }

  /** GET /cashier/today-sales: the completed orders from today's midnight on, as
      `get_orders` returns them with its default limit of 100, newest first; their
      number and revenue, the revenue per hour, and the first ten of them. */
  method GetTodaySales(db: Database, listing: seq<Id>, today: int) returns (r: TodaySales)
    requires Lists(db.orders, listing)
    ensures var fetched := OrderService.GetOrders(db.orders, listing, 0, FetchLimit, Some(OrderService.Completed), Some(today));
      && r.totalSales == |fetched|
      && r.totalRevenue == Sum(fetched, OrderTotal)
      && (forall h :: h in r.hourlySales <==> h in KeysOf(fetched, OrderHour))
      && (forall h :: h in r.hourlySales ==> r.hourlySales[h] == GroupTotal(fetched, OrderHour, OrderTotal, h))
      && Sum(KeysOf(fetched, OrderHour), BucketOf(r.hourlySales)) == r.totalRevenue
      && r.orders == Take(fetched, ShownOrders)
    ensures r.date == today && r.totalSales <= FetchLimit && |r.orders| <= ShownOrders
    ensures forall h :: h in r.hourlySales ==> 0 <= h < 24
    ensures forall i :: 0 <= i < |r.orders| ==>
      r.orders[i].status == Some(OrderService.Completed) && DayOf(r.orders[i].date) >= today
  {
    var fetched := OrderService.GetOrders(db.orders, listing, 0, FetchLimit, Some(OrderService.Completed), Some(today));
    var hourly := HourlySales(fetched);
    TallySumsToTotal(hourly, fetched, OrderHour, OrderTotal);
    FetchedFacts(fetched, today);
    r := TodaySales(today, |fetched|, Sum(fetched, OrderTotal), hourly, Take(fetched, ShownOrders));
  }

  /** The fetched orders are completed and dated today or later. */
  lemma FetchedFacts(fetched: seq<Order>, today: int)
    requires forall i :: 0 <= i < |fetched| ==> OrderService.Listed(Some(OrderService.Completed), Some(today))(fetched[i])
    ensures forall i :: 0 <= i < |fetched| ==>
      fetched[i].status == Some(OrderService.Completed) && DayOf(fetched[i].date) >= today
  {
    forall i | 0 <= i < |fetched|
      ensures fetched[i].status == Some(OrderService.Completed) && DayOf(fetched[i].date) >= today
    {
      OrderService.DateFromIsCalendarDate(fetched[i], today);
    }
  }
}
