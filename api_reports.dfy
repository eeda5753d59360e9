/** The report endpoints of the api variant (backend/src/api/reports.py): the
    daily report, sales by category with percentage shares, and the ranking of
    dishes by quantity sold. */
module ApiReports {
  import opened Seqs
  import opened Store
  import opened Grouping
  import ApiCashier

  // ------------------------------------------------------------ daily report

  /** One order of the daily report; `time` is the minute of the day (`HH:MM`). */
  datatype DailyEntry = DailyEntry(orderId: Id, time: int, total: Money, itemCount: nat)

  datatype DailyReport = DailyReport(day: int, ordersCount: nat, dailyTotal: Money, averageOrder: real,
                                     orders: seq<DailyEntry>)

  function EntryOf(o: Order, items: map<Id, OrderItem>): DailyEntry {
    DailyEntry(o.id, MinuteOfDay(o.date), o.total, ItemCount(items, o.id))
  }

  /** GET /reports/daily: the orders whose calendar date is the report date (today when
      none is given), in store order; their count, the sum of their totals, the average
      (0 when there are none) and one entry per order with its line count. */
  method GetDailyReport(db: Database, reportDate: Option<int>, today: int, listing: seq<Id>)
    returns (report: DailyReport)
    requires Lists(db.orders, listing)
    ensures report.day == if reportDate.Some? then reportDate.value else today
    ensures var orders := Filter(Rows(db.orders, listing), ApiCashier.OnDay(report.day));
      && report.ordersCount == |orders|
      && report.dailyTotal == Sum(orders, OrderTotal)
      && |report.orders| == |orders|
      && (forall i :: 0 <= i < |orders| ==> report.orders[i] == EntryOf(orders[i], db.items))
    ensures forall i :: 0 <= i < |report.orders| ==> report.orders[i].itemCount == ItemCount(db.items, report.orders[i].orderId)
    ensures report.averageOrder == Average(report.dailyTotal, report.ordersCount)
    ensures report.ordersCount == 0 ==> report.dailyTotal == 0
  {
    var day := if reportDate.Some? then reportDate.value else today;
    var orders := Filter(Rows(db.orders, listing), ApiCashier.OnDay(day));
    var dailyTotal := Sum(orders, OrderTotal);
    var entries := DailyEntries(orders, db.items);
    report := DailyReport(day, |orders|, dailyTotal, Average(dailyTotal, |orders|), entries);
  }

  /** The loop that shapes each order of the day into an entry with its line count. */
  method DailyEntries(orders: seq<Order>, items: map<Id, OrderItem>) returns (entries: seq<DailyEntry>)
    ensures |entries| == |orders|
    ensures forall i :: 0 <= i < |orders| ==> entries[i] == EntryOf(orders[i], items)
  {
    entries := [];
    for i := 0 to |orders|
      invariant |entries| == i
      invariant forall j :: 0 <= j < i ==> entries[j] == EntryOf(orders[j], items)
    {
      var itemCount := ItemCount(items, orders[i].id);
      entries := entries + [DailyEntry(orders[i].id, MinuteOfDay(orders[i].date), orders[i].total, itemCount)];
    }
  }

  /** Every stored order of the report date is counted, and only those. */
  lemma DailyReportCountsThatDay(orders: map<Id, Order>, listing: seq<Id>, day: int)
    requires Lists(orders, listing)
    ensures forall k :: k in orders ==>
      (orders[k] in Filter(Rows(orders, listing), ApiCashier.OnDay(day)) <==> DayOf(orders[k].date) == day)
  {
    var rows := Rows(orders, listing);
    forall k | k in orders
      ensures orders[k] in Filter(rows, ApiCashier.OnDay(day)) <==> DayOf(orders[k].date) == day
    {
      var i :| 0 <= i < |listing| && listing[i] == k;
      assert rows[i] == orders[k];
    }
  }

  // --------------------------------------------------------- category report

  /** One sold line joined with its dish's category name. */
  datatype CategorySale = CategorySale(category: string, quantity: int, amount: Money)

  /** One row of the grouped query: a category name with its summed quantity and amount. */
  datatype CategoryTotal = CategoryTotal(category: string, quantity: int, amount: Money)

  /** One entry of the response, with its share of the period's total. */
  datatype CategoryShare = CategoryShare(category: string, quantity: int, amount: Money, percentage: real)

  datatype CategoryReport = CategoryReport(start: int, end: int, totalAmount: Money, categories: seq<CategoryShare>)

  function SaleCategory(s: CategorySale): string { s.category }
  function SaleQuantity(s: CategorySale): int { s.quantity }
  function SaleAmount(s: CategorySale): int { s.amount }
  function TotalAmount(t: CategoryTotal): int { t.amount }
  function ShareAmount(s: CategoryShare): int { s.amount }
  function Percentage(s: CategoryShare): real { s.percentage }

  /** The inner joins item → dish → category and item → order, with the order's calendar
      date between start and end inclusive. */
  function SoldInPeriod(dishes: map<Id, Dish>, categories: map<Id, Category>, orders: map<Id, Order>,
                        start: int, end: int): OrderItem -> bool
  {
    (it: OrderItem) =>
      && it.dishId in dishes && dishes[it.dishId].categoryId in categories
      && it.orderId in orders && start <= DayOf(orders[it.orderId].date) <= end
  }

  /** The joined rows of the category query, in the order of the item listing. */
  function CategorySales(items: map<Id, OrderItem>, listing: seq<Id>, dishes: map<Id, Dish>,
                         categories: map<Id, Category>, orders: map<Id, Order>, start: int, end: int)
    : (r: seq<CategorySale>)
    requires forall k :: k in listing ==> k in items
  {
    var sold := Filter(Rows(items, listing), SoldInPeriod(dishes, categories, orders, start, end));
    seq(|sold|, i requires 0 <= i < |sold| =>
      CategorySale(categories[dishes[sold[i].dishId].categoryId].name, sold[i].quantity, sold[i].itemTotal))
  }

  /** `GROUP BY Category.name` with the summed quantity and amount, one row per name. */
  function ByCategory(sales: seq<CategorySale>): seq<CategoryTotal> {
    var names := KeysOf(sales, SaleCategory);
    seq(|names|, i requires 0 <= i < |names| =>
      CategoryTotal(names[i], GroupTotal(sales, SaleCategory, SaleQuantity, names[i]),
                    GroupTotal(sales, SaleCategory, SaleAmount, names[i])))
  }

  /** One row per category name. */
  lemma ByCategoryDistinct(sales: seq<CategorySale>)
    ensures DistinctBy(ByCategory(sales), (t: CategoryTotal) => t.category)
  {
  }

  /** Every sold line's category has its row. */
  lemma ByCategoryCovers(sales: seq<CategorySale>, j: nat) returns (i: nat)
    requires j < |sales|
    ensures i < |ByCategory(sales)| && ByCategory(sales)[i].category == sales[j].category
  {
    var names := KeysOf(sales, SaleCategory);
    assert SaleCategory(sales[j]) in names;
    i :| 0 <= i < |names| && names[i] == sales[j].category;
  }

  /** The per-category amounts add up to the amount of all sold lines. */
  lemma ByCategoryTotals(sales: seq<CategorySale>)
    ensures Sum(ByCategory(sales), TotalAmount) == Sum(sales, SaleAmount)
  {
    var names := KeysOf(sales, SaleCategory);
    SumPointwise(ByCategory(sales), TotalAmount, names, GroupTotalOf(sales, SaleCategory, SaleAmount));
    GroupTotalsSum(sales, SaleCategory, SaleAmount);
  }

  /** The two loops of lines 75-88: the running total of the amounts, then each row's share of it. */
  method CategoryShares(rows: seq<CategoryTotal>) returns (total: Money, shares: seq<CategoryShare>)
    ensures total == Sum(rows, TotalAmount)
    ensures |shares| == |rows|
    ensures forall i :: 0 <= i < |rows| ==>
      shares[i] == CategoryShare(rows[i].category, rows[i].quantity, rows[i].amount, Share(rows[i].amount, total))
  {
    total := 0;
    for i := 0 to |rows|
      invariant total == Sum(rows[..i], TotalAmount)
    {
      SumPrefix(rows, i, TotalAmount);
      total := total + rows[i].amount;
    }
    assert rows[..|rows|] == rows;
    shares := [];
    for i := 0 to |rows|
      invariant |shares| == i
      invariant forall j :: 0 <= j < i ==>
        shares[j] == CategoryShare(rows[j].category, rows[j].quantity, rows[j].amount, Share(rows[j].amount, total))
    {
      var percentage := if total > 0 then rows[i].amount as real / total as real * 100.0 else 0.0;
      shares := shares + [CategoryShare(rows[i].category, rows[i].quantity, rows[i].amount, percentage)];
    }
  }

  /** GET /reports/by-category: the period defaults to [today - 7, today]; the response
      holds one entry per category name with its quantity, amount and share, and the
      total of the amounts. */
  method GetCategoryReport(db: Database, startDate: Option<int>, endDate: Option<int>, today: int,
                           itemListing: seq<Id>)
    returns (report: CategoryReport)
    requires Lists(db.items, itemListing)
    ensures report.start == if startDate.Some? then startDate.value else today - 7
    ensures report.end == if endDate.Some? then endDate.value else today
    ensures var sales := CategorySales(db.items, itemListing, db.dishes, db.categories, db.orders, report.start, report.end);
      var rows := ByCategory(sales);
      && report.totalAmount == Sum(sales, SaleAmount)
      && report.totalAmount == Sum(report.categories, ShareAmount)
      && |report.categories| == |rows|
      && (forall i :: 0 <= i < |rows| ==>
            && report.categories[i].category == rows[i].category
            && report.categories[i].quantity == rows[i].quantity
            && report.categories[i].amount == rows[i].amount
            && report.categories[i].percentage == Share(rows[i].amount, report.totalAmount))
    ensures report.totalAmount > 0 ==> SumReal(report.categories, Percentage) == 100.0
  {
    var start := if startDate.Some? then startDate.value else today - 7;
    var end := if endDate.Some? then endDate.value else today;
    var sales := CategorySales(db.items, itemListing, db.dishes, db.categories, db.orders, start, end);
    var rows := ByCategory(sales);
    var total, shares := CategoryShares(rows);
    ByCategoryTotals(sales);
    SumPointwise(shares, ShareAmount, rows, TotalAmount);
    if total > 0 {
      SharesSumToHundred(shares, ShareAmount, Percentage, total);
    }
    report := CategoryReport(start, end, total, shares);
  }

  // ---------------------------------------------------------- popular dishes

  /** One row of the ranking; the response shows all but the dish id. */
  datatype DishSales = DishSales(dishId: Id, dish: string, category: string, sold: int, revenue: Money)

  /** The inner joins item → dish → category; no date filter. */
  function Catalogued(dishes: map<Id, Dish>, categories: map<Id, Category>): OrderItem -> bool {
    (it: OrderItem) => it.dishId in dishes && dishes[it.dishId].categoryId in categories
  }

  /** The totals of one dish over the joined lines. */
  predicate TalliesDish(lines: seq<OrderItem>, dishes: map<Id, Dish>, categories: map<Id, Category>, e: DishSales) {
    && e.dishId in dishes && dishes[e.dishId].categoryId in categories
    && e.dish == dishes[e.dishId].name
    && e.category == categories[dishes[e.dishId].categoryId].name
    && e.sold == GroupTotal(lines, DishOf, ItemQuantity, e.dishId)
    && e.revenue == GroupTotal(lines, DishOf, ItemTotal, e.dishId)
  }

  /** `GROUP BY Dish.dish_id` over the joined lines: one row per dish that was ever sold. */
  function DishTotals(lines: seq<OrderItem>, dishes: map<Id, Dish>, categories: map<Id, Category>)
    : (r: seq<DishSales>)
    requires forall i :: 0 <= i < |lines| ==> Catalogued(dishes, categories)(lines[i])
    ensures |r| == |KeysOf(lines, DishOf)|
    ensures forall i :: 0 <= i < |r| ==> r[i].dishId == KeysOf(lines, DishOf)[i]
    ensures forall i :: 0 <= i < |r| ==> TalliesDish(lines, dishes, categories, r[i])
  {
    var ids := KeysOf(lines, DishOf);
    KeysCatalogued(lines, dishes, categories);
    seq(|ids|, i requires 0 <= i < |ids| =>
      var d := dishes[ids[i]];
      DishSales(ids[i], d.name, categories[d.categoryId].name,
                GroupTotal(lines, DishOf, ItemQuantity, ids[i]), GroupTotal(lines, DishOf, ItemTotal, ids[i])))
  }

  /** Every grouped dish exists and so does its category. */
  lemma KeysCatalogued(lines: seq<OrderItem>, dishes: map<Id, Dish>, categories: map<Id, Category>)
    requires forall i :: 0 <= i < |lines| ==> Catalogued(dishes, categories)(lines[i])
    ensures forall k :: k in KeysOf(lines, DishOf) ==> k in dishes && dishes[k].categoryId in categories
  {
    forall k | k in KeysOf(lines, DishOf) ensures k in dishes && dishes[k].categoryId in categories {
      var i :| 0 <= i < |lines| && DishOf(lines[i]) == k;
      assert Catalogued(dishes, categories)(lines[i]);
    }
  }

  function DishIdOf(e: DishSales): Id { e.dishId }

  /** Sort key for `order_by(sum(quantity).desc())`. */
  function MostSold(e: DishSales): int { -e.sold }

  /** The joined lines ranked by quantity sold, most sold first. */
  function Ranking(lines: seq<OrderItem>, dishes: map<Id, Dish>, categories: map<Id, Category>): seq<DishSales>
    requires forall i :: 0 <= i < |lines| ==> Catalogued(dishes, categories)(lines[i])
  {
    SortBy(DishTotals(lines, dishes, categories), MostSold)
  }

  /** The ranking holds one row per sold dish, each with that dish's totals, most sold first. */
  lemma RankingFacts(lines: seq<OrderItem>, dishes: map<Id, Dish>, categories: map<Id, Category>)
    requires forall i :: 0 <= i < |lines| ==> Catalogued(dishes, categories)(lines[i])
    ensures |Ranking(lines, dishes, categories)| == |KeysOf(lines, DishOf)|
    ensures forall i :: 0 <= i < |Ranking(lines, dishes, categories)| ==>
      TalliesDish(lines, dishes, categories, Ranking(lines, dishes, categories)[i])
    ensures forall i, j :: 0 <= i < j < |Ranking(lines, dishes, categories)| ==>
      Ranking(lines, dishes, categories)[i].sold >= Ranking(lines, dishes, categories)[j].sold
    ensures DistinctBy(Ranking(lines, dishes, categories), DishIdOf)
  {
    var rows := DishTotals(lines, dishes, categories);
    SortByMembers(rows, MostSold);
    assert DistinctBy(rows, DishIdOf);
    SortByDistinctBy(rows, MostSold, DishIdOf);
  }

  /** Every dish of the joined lines has a row in the ranking. */
  lemma RankingCovers(lines: seq<OrderItem>, dishes: map<Id, Dish>, categories: map<Id, Category>, q: nat)
    returns (i: nat)
    requires forall i :: 0 <= i < |lines| ==> Catalogued(dishes, categories)(lines[i])
    requires q < |lines|
    ensures i < |Ranking(lines, dishes, categories)| && Ranking(lines, dishes, categories)[i].dishId == lines[q].dishId
  {
    var rows := DishTotals(lines, dishes, categories);
    var keys := KeysOf(lines, DishOf);
    assert DishOf(lines[q]) in keys;
    var m :| 0 <= m < |keys| && keys[m] == lines[q].dishId;
    assert rows[m].dishId == lines[q].dishId;
    i := SortByHasAll(rows, MostSold, m);
  }

  /** The first `limit` rows of the ranking keep its properties, and they are the most
      sold dishes: a dish left out sold no more than any dish kept. */
  lemma TopOfRanking(lines: seq<OrderItem>, dishes: map<Id, Dish>, categories: map<Id, Category>, limit: nat)
    requires forall i :: 0 <= i < |lines| ==> Catalogued(dishes, categories)(lines[i])
    ensures var top := Take(Ranking(lines, dishes, categories), limit);
      && |top| == Min(|KeysOf(lines, DishOf)|, limit)
      && (forall i :: 0 <= i < |top| ==> TalliesDish(lines, dishes, categories, top[i]))
      && (forall i, j :: 0 <= i < j < |top| ==> top[i].sold >= top[j].sold)
      && DistinctBy(top, DishIdOf)
      && SoldMost(lines, top)
  {
    var ranked := Ranking(lines, dishes, categories);
    RankingFacts(lines, dishes, categories);
    PrefixKeeps(ranked, Min(|ranked|, limit));
    TopSoldMost(lines, dishes, categories, limit);
  }

  lemma TopSoldMost(lines: seq<OrderItem>, dishes: map<Id, Dish>, categories: map<Id, Category>, limit: nat)
    requires forall i :: 0 <= i < |lines| ==> Catalogued(dishes, categories)(lines[i])
    ensures SoldMost(lines, Take(Ranking(lines, dishes, categories), limit))
  {
    var top := Take(Ranking(lines, dishes, categories), limit);
    forall d | d in KeysOf(lines, DishOf) && (forall i :: 0 <= i < |top| ==> top[i].dishId != d)
      ensures forall i :: 0 <= i < |top| ==> GroupTotal(lines, DishOf, ItemQuantity, d) <= top[i].sold
    {
      LeftOutSoldNoMore(lines, dishes, categories, limit, d);
    }
  }

  /** No dish of the joined lines that is left out of `top` sold more than a dish in it. */
  predicate SoldMost(lines: seq<OrderItem>, top: seq<DishSales>) {
    forall d :: d in KeysOf(lines, DishOf) && (forall i :: 0 <= i < |top| ==> top[i].dishId != d) ==>
      forall i :: 0 <= i < |top| ==> GroupTotal(lines, DishOf, ItemQuantity, d) <= top[i].sold
  }

  /** A dish missing from the first `limit` rows of the ranking sold no more than each of them. */
  lemma LeftOutSoldNoMore(lines: seq<OrderItem>, dishes: map<Id, Dish>, categories: map<Id, Category>,
                          limit: nat, d: Id)
    requires forall i :: 0 <= i < |lines| ==> Catalogued(dishes, categories)(lines[i])
    requires d in KeysOf(lines, DishOf)
    requires forall i :: 0 <= i < |Take(Ranking(lines, dishes, categories), limit)| ==>
      Take(Ranking(lines, dishes, categories), limit)[i].dishId != d
    ensures forall i :: 0 <= i < |Take(Ranking(lines, dishes, categories), limit)| ==>
      GroupTotal(lines, DishOf, ItemQuantity, d) <= Take(Ranking(lines, dishes, categories), limit)[i].sold
  {
    var rows := DishTotals(lines, dishes, categories);
    var keys := KeysOf(lines, DishOf);
    var m :| 0 <= m < |keys| && keys[m] == d;
    assert rows[m].dishId == d && rows[m].sold == GroupTotal(lines, DishOf, ItemQuantity, d) by {
      assert TalliesDish(lines, dishes, categories, rows[m]);
    }
    var top := Take(Ranking(lines, dishes, categories), limit);
    assert top == Take(SortBy(rows, MostSold), limit);
    forall i | 0 <= i < |top|
      ensures GroupTotal(lines, DishOf, ItemQuantity, d) <= top[i].sold
    {
      LeastSoldLeftOut(rows, limit, m, top, i);
    }
  }

  /** A row whose dish is missing from the first `limit` rows sorted by sold sold no more than each of them. */
  lemma LeastSoldLeftOut(rows: seq<DishSales>, limit: nat, m: nat, top: seq<DishSales>, i: nat)
    requires m < |rows| && top == Take(SortBy(rows, MostSold), limit) && i < |top|
    requires forall k :: 0 <= k < |top| ==> top[k].dishId != rows[m].dishId
    ensures rows[m].sold <= top[i].sold
  {
    forall k | 0 <= k < |top|
      ensures top[k] != rows[m]
    {
      assert top[k].dishId != rows[m].dishId;
    }
    TakeSortedIsLeast(rows, MostSold, limit, m, i);
  }

  /** A prefix of rows that are tallies, ordered by sold and distinct by dish stays so. */
  lemma PrefixKeeps(rows: seq<DishSales>, n: nat)
    requires n <= |rows|
    ensures forall i :: 0 <= i < n ==> rows[..n][i] == rows[i]
    ensures DistinctBy(rows, DishIdOf) ==> DistinctBy(rows[..n], DishIdOf)
  {
  }

  /** The `limit` query parameter, 10 when it is not given. */
  const DefaultLimit: int := 10

  function LimitOrDefault(limit: Option<int>): int {
    if limit.Some? then limit.value else DefaultLimit
  }

  /** GET /reports/popular-dishes: a limit outside 1..50 is refused with 422; otherwise
      the `limit` most sold dishes over all time, most sold first. */
  function PopularDishes(limit: Option<int>, items: map<Id, OrderItem>, listing: seq<Id>, dishes: map<Id, Dish>,
                         categories: map<Id, Category>): (r: Result<seq<DishSales>, HttpError>)
    requires forall k :: k in listing ==> k in items
    ensures limit.None? ==> r.Success?
    ensures !(1 <= LimitOrDefault(limit) <= 50) <==> r == Failure(Unprocessable)
    ensures r.Success? ==>
      var lines := Filter(Rows(items, listing), Catalogued(dishes, categories));
      && |r.value| == Min(|KeysOf(lines, DishOf)|, LimitOrDefault(limit))
      && (forall i :: 0 <= i < |r.value| ==> TalliesDish(lines, dishes, categories, r.value[i]))
      && (forall i, j :: 0 <= i < j < |r.value| ==> r.value[i].sold >= r.value[j].sold)
      && DistinctBy(r.value, DishIdOf)
      && SoldMost(lines, r.value)
  {
    var n := LimitOrDefault(limit);
    if !(1 <= n <= 50) then Failure(Unprocessable)
    else
      var lines := Filter(Rows(items, listing), Catalogued(dishes, categories));
      TopOfRanking(lines, dishes, categories, n);
      Success(Take(Ranking(lines, dishes, categories), n))
  }

  /** Every dish that was sold at all is ranked when fewer dishes were sold than the limit. */
  lemma EverySoldDishRanked(limit: Option<int>, items: map<Id, OrderItem>, listing: seq<Id>, dishes: map<Id, Dish>,
                            categories: map<Id, Category>, it: OrderItem)
    requires Lists(items, listing) && 1 <= LimitOrDefault(limit) <= 50
    requires it in items.Values && Catalogued(dishes, categories)(it)
    requires |KeysOf(Filter(Rows(items, listing), Catalogued(dishes, categories)), DishOf)| <= LimitOrDefault(limit)
    ensures exists i ::
              && 0 <= i < |PopularDishes(limit, items, listing, dishes, categories).value|
              && PopularDishes(limit, items, listing, dishes, categories).value[i].dishId == it.dishId
  {
    var lines := Filter(Rows(items, listing), Catalogued(dishes, categories));
    assert PopularDishes(limit, items, listing, dishes, categories).value
        == Take(Ranking(lines, dishes, categories), LimitOrDefault(limit));
    var q := StoredRowListed(items, listing, Catalogued(dishes, categories), it);
    var i := ShortRankingCovers(lines, dishes, categories, LimitOrDefault(limit), q);
  }

  /** A ranking no longer than the limit is kept whole, so every sold dish is in it. */
  lemma ShortRankingCovers(lines: seq<OrderItem>, dishes: map<Id, Dish>, categories: map<Id, Category>, n: nat, q: nat)
    returns (i: nat)
    requires forall i :: 0 <= i < |lines| ==> Catalogued(dishes, categories)(lines[i])
    requires q < |lines| && |KeysOf(lines, DishOf)| <= n
    ensures i < |Take(Ranking(lines, dishes, categories), n)|
    ensures Take(Ranking(lines, dishes, categories), n)[i].dishId == lines[q].dishId
  {
    var ranked := Ranking(lines, dishes, categories);
    i := RankingCovers(lines, dishes, categories, q);
    RankingFacts(lines, dishes, categories);
    assert Take(ranked, n)[i] == ranked[i];
  }
}
