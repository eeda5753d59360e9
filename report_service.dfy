/** The report service of the service-layer variant
    (backend/src/services/report_service.py): the sales report with the ten most
    sold dishes, revenue by category with percentage shares, and revenue per
    calendar date over the last days. Each counts only the completed orders whose
    timestamp lies between the start date's and the end date's midnights, as the
    code compares them; the versions named ...ThroughEndDate / ...ThroughToday
    count the whole end date. */
module ReportService {
  import opened Seqs
  import opened Store
  import opened Grouping
  import OrderService

  /** `OrderItem JOIN Order` restricted to the orders that `counts` lets through. */
  function SoldIn(orders: map<Id, Order>, counts: Order -> bool): OrderItem -> bool {
    (it: OrderItem) => it.orderId in orders && counts(orders[it.orderId])
  }

  // ------------------------------------------------------------ sales report

  /** One of the most sold dishes: its id and name with the summed quantity and revenue. */
  datatype PopularDish = PopularDish(dishId: Id, name: string, totalQuantity: int, totalRevenue: Money)

  datatype SalesReport = SalesReport(start: int, end: int, totalRevenue: Money, totalOrders: nat,
                                     averageOrderValue: real, popularDishes: seq<PopularDish>)

  const PopularLimit: nat := 10

  /** The joined rows of the popular-dishes query: `Dish JOIN OrderItem JOIN Order` in the period. */
  function DishSold(dishes: map<Id, Dish>, orders: map<Id, Order>, counts: Order -> bool): OrderItem -> bool {
    (it: OrderItem) => it.dishId in dishes && SoldIn(orders, counts)(it)
  }

  /** The totals of one dish over the joined lines. */
  predicate TalliesDish(lines: seq<OrderItem>, dishes: map<Id, Dish>, e: PopularDish) {
    && e.dishId in dishes
    && e.name == dishes[e.dishId].name
    && e.totalQuantity == GroupTotal(lines, DishOf, ItemQuantity, e.dishId)
    && e.totalRevenue == GroupTotal(lines, DishOf, ItemTotal, e.dishId)
  }

  /** `GROUP BY Dish.id, Dish.name` with the summed quantity and item total: one row per dish sold. */
  function DishTotals(lines: seq<OrderItem>, dishes: map<Id, Dish>): (r: seq<PopularDish>)
    requires forall i :: 0 <= i < |lines| ==> lines[i].dishId in dishes
    ensures |r| == |KeysOf(lines, DishOf)|
    ensures forall i :: 0 <= i < |r| ==> r[i].dishId == KeysOf(lines, DishOf)[i]
    ensures forall i :: 0 <= i < |r| ==> TalliesDish(lines, dishes, r[i])
  {
    var ids := KeysOf(lines, DishOf);
    KeysAreDishes(lines, dishes);
    seq(|ids|, i requires 0 <= i < |ids| =>
      PopularDish(ids[i], dishes[ids[i]].name,
                  GroupTotal(lines, DishOf, ItemQuantity, ids[i]), GroupTotal(lines, DishOf, ItemTotal, ids[i])))
  }

  /** Every grouped dish id names a stored dish. */
  lemma KeysAreDishes(lines: seq<OrderItem>, dishes: map<Id, Dish>)
    requires forall i :: 0 <= i < |lines| ==> lines[i].dishId in dishes
    ensures forall k :: k in KeysOf(lines, DishOf) ==> k in dishes
  {
    forall k | k in KeysOf(lines, DishOf)
      ensures k in dishes
    {
      var i :| 0 <= i < |lines| && DishOf(lines[i]) == k;
    }
  }

  function PopularDishId(e: PopularDish): Id { e.dishId }

  /** Sort key for `order_by(desc('total_quantity'))`. */
  function QuantityDesc(e: PopularDish): int { -e.totalQuantity }

  /** No dish of the joined lines that is left out of `top` sold more than a dish in it. */
  predicate SoldMost(lines: seq<OrderItem>, top: seq<PopularDish>) {
    forall d :: d in KeysOf(lines, DishOf) && (forall i :: 0 <= i < |top| ==> top[i].dishId != d) ==>
      forall i :: 0 <= i < |top| ==> GroupTotal(lines, DishOf, ItemQuantity, d) <= top[i].totalQuantity
  }

  /** `top` is what `.order_by(desc('total_quantity')).limit(n)` returns: min(#dishes, n)
      rows, each with its dish's true totals, distinct dishes, most sold first, and no
      dish left out sold more than one kept. */
  predicate TopSold(top: seq<PopularDish>, lines: seq<OrderItem>, dishes: map<Id, Dish>, n: nat) {
    && |top| == Min(|KeysOf(lines, DishOf)|, n)
    && (forall i :: 0 <= i < |top| ==> TalliesDish(lines, dishes, top[i]))
    && (forall i, j :: 0 <= i < j < |top| ==> top[i].totalQuantity >= top[j].totalQuantity)
    && DistinctBy(top, PopularDishId)
    && SoldMost(lines, top)
  }

  /** The first n rows of the dishes ranked by quantity, most sold first (`.limit(n)`). */
  function TopDishes(lines: seq<OrderItem>, dishes: map<Id, Dish>, n: nat): (r: seq<PopularDish>)
    requires forall i :: 0 <= i < |lines| ==> lines[i].dishId in dishes
    ensures TopSold(r, lines, dishes, n)
  {
    var ranked := SortBy(DishTotals(lines, dishes), QuantityDesc);
    RankedFacts(lines, dishes, ranked);
    TopKeeps(ranked, Min(|ranked|, n));
    TopSoldMost(lines, dishes, n);
    Take(ranked, n)
  }

  lemma TopSoldMost(lines: seq<OrderItem>, dishes: map<Id, Dish>, n: nat)
    requires forall i :: 0 <= i < |lines| ==> lines[i].dishId in dishes
    ensures SoldMost(lines, Take(SortBy(DishTotals(lines, dishes), QuantityDesc), n))
  {
    var top := Take(SortBy(DishTotals(lines, dishes), QuantityDesc), n);
    forall d | d in KeysOf(lines, DishOf) && (forall i :: 0 <= i < |top| ==> top[i].dishId != d)
      ensures forall i :: 0 <= i < |top| ==> GroupTotal(lines, DishOf, ItemQuantity, d) <= top[i].totalQuantity
    {
      LeftOutSoldNoMore(lines, dishes, n, d);
    }
  }

  /** A dish missing from the top n sold no more than each of them. */
  lemma LeftOutSoldNoMore(lines: seq<OrderItem>, dishes: map<Id, Dish>, n: nat, d: Id)
    requires forall i :: 0 <= i < |lines| ==> lines[i].dishId in dishes
    requires d in KeysOf(lines, DishOf)
    requires forall i :: 0 <= i < |Take(SortBy(DishTotals(lines, dishes), QuantityDesc), n)| ==>
      Take(SortBy(DishTotals(lines, dishes), QuantityDesc), n)[i].dishId != d
    ensures forall i :: 0 <= i < |Take(SortBy(DishTotals(lines, dishes), QuantityDesc), n)| ==>
      GroupTotal(lines, DishOf, ItemQuantity, d) <= Take(SortBy(DishTotals(lines, dishes), QuantityDesc), n)[i].totalQuantity
  {
    var rows := DishTotals(lines, dishes);
    var keys := KeysOf(lines, DishOf);
    var m :| 0 <= m < |keys| && keys[m] == d;
    assert rows[m].dishId == d && rows[m].totalQuantity == GroupTotal(lines, DishOf, ItemQuantity, d) by {
      assert TalliesDish(lines, dishes, rows[m]);
    }
    var top := Take(SortBy(rows, QuantityDesc), n);
    forall i | 0 <= i < |top|
      ensures rows[m].totalQuantity <= top[i].totalQuantity
    {
      LeastSoldLeftOut(rows, n, m, top, i);
    }
  }

  /** A row whose dish is missing from the first n rows sorted by quantity sold no more than each of them. */
  lemma LeastSoldLeftOut(rows: seq<PopularDish>, n: nat, m: nat, top: seq<PopularDish>, i: nat)
    requires m < |rows| && top == Take(SortBy(rows, QuantityDesc), n) && i < |top|
    requires forall k :: 0 <= k < |top| ==> top[k].dishId != rows[m].dishId
    ensures rows[m].totalQuantity <= top[i].totalQuantity
  {
    forall k | 0 <= k < |top|
      ensures top[k] != rows[m]
    {
      assert top[k].dishId != rows[m].dishId;
    }
    TakeSortedIsLeast(rows, QuantityDesc, n, m, i);
  }

  /** The ranked rows hold the totals of distinct dishes, in descending order of quantity. */
  lemma RankedFacts(lines: seq<OrderItem>, dishes: map<Id, Dish>, ranked: seq<PopularDish>)
    requires forall i :: 0 <= i < |lines| ==> lines[i].dishId in dishes
    requires ranked == SortBy(DishTotals(lines, dishes), QuantityDesc)
    ensures |ranked| == |KeysOf(lines, DishOf)|
    ensures forall i :: 0 <= i < |ranked| ==> TalliesDish(lines, dishes, ranked[i])
    ensures forall i, j :: 0 <= i < j < |ranked| ==> ranked[i].totalQuantity >= ranked[j].totalQuantity
    ensures DistinctBy(ranked, PopularDishId)
  {
    var rows := DishTotals(lines, dishes);
    SortByMembers(rows, QuantityDesc);
    assert DistinctBy(rows, PopularDishId);
    SortByDistinctBy(rows, QuantityDesc, PopularDishId);
    forall i, j | 0 <= i < j < |ranked|
      ensures ranked[i].totalQuantity >= ranked[j].totalQuantity
    {
      assert QuantityDesc(ranked[i]) <= QuantityDesc(ranked[j]);
    }
  }

  /** A prefix keeps the elements at their places, and distinct dish ids stay distinct. */
  lemma TopKeeps(rows: seq<PopularDish>, n: nat)
    requires n <= |rows|
    ensures forall i :: 0 <= i < n ==> rows[..n][i] == rows[i]
    ensures DistinctBy(rows, PopularDishId) ==> DistinctBy(rows[..n], PopularDishId)
  {
  }

  /** Every dish sold in the period is among the top dishes when fewer than n dishes were sold. */
  lemma EverySoldDishOnTop(lines: seq<OrderItem>, dishes: map<Id, Dish>, n: nat, q: nat)
    requires forall i :: 0 <= i < |lines| ==> lines[i].dishId in dishes
    requires |KeysOf(lines, DishOf)| <= n && q < |lines|
    ensures exists i ::
              && 0 <= i < |TopDishes(lines, dishes, n)|
              && TopDishes(lines, dishes, n)[i].dishId == lines[q].dishId
  {
    var rows := DishTotals(lines, dishes);
    var m := KeyIndex(lines, q);
    var i := SortByHasAll(rows, QuantityDesc, m);
    TopIsAllRanked(lines, dishes, n);
  }

  /** The position of a line's dish among the grouped dish ids. */
  lemma KeyIndex(lines: seq<OrderItem>, q: nat) returns (m: nat)
    requires q < |lines|
    ensures m < |KeysOf(lines, DishOf)| && KeysOf(lines, DishOf)[m] == lines[q].dishId
  {
    var keys := KeysOf(lines, DishOf);
    assert DishOf(lines[q]) in keys;
    m :| 0 <= m < |keys| && keys[m] == lines[q].dishId;
  }

  /** With at most n dishes sold, the top n are all of them, ranked. */
  lemma TopIsAllRanked(lines: seq<OrderItem>, dishes: map<Id, Dish>, n: nat)
    requires forall i :: 0 <= i < |lines| ==> lines[i].dishId in dishes
    requires |KeysOf(lines, DishOf)| <= n
    ensures TopDishes(lines, dishes, n) == SortBy(DishTotals(lines, dishes), QuantityDesc)
  {
    var ranked := SortBy(DishTotals(lines, dishes), QuantityDesc);
    RankedFacts(lines, dishes, ranked);
    assert Take(ranked, n) == ranked;
  }

  /** `get_sales_report` as written: the statistics of the completed orders between the
      start date's and the end date's midnights and the ten dishes sold most in them. */
  function GetSalesReport(orders: map<Id, Order>, orderListing: seq<Id>, items: map<Id, OrderItem>,
                          itemListing: seq<Id>, dishes: map<Id, Dish>, start: int, end: int): (r: SalesReport)
    requires Lists(orders, orderListing) && Lists(items, itemListing)
    ensures r.start == start && r.end == end
    ensures r.totalOrders == |KeysWhere(orders, OrderService.CompletedInWindow(start, end))|
    ensures r.totalRevenue == Sum(Filter(Rows(orders, orderListing), OrderService.CompletedInWindow(start, end)), OrderTotal)
    ensures r.totalOrders == 0 ==> r.totalRevenue == 0 && r.averageOrderValue == 0.0
    ensures r.averageOrderValue == Average(r.totalRevenue, r.totalOrders)
    ensures TopSold(r.popularDishes, Filter(Rows(items, itemListing),
                    DishSold(dishes, orders, OrderService.CompletedInWindow(start, end))), dishes, PopularLimit)
  {
    var stats := OrderService.GetOrderStatistics(orders, orderListing, start, end);
    var lines := Filter(Rows(items, itemListing), DishSold(dishes, orders, OrderService.CompletedInWindow(start, end)));
    SalesLinesHaveDishes(lines, dishes, orders, OrderService.CompletedInWindow(start, end));
    SalesReport(start, end, stats.totalRevenue, stats.totalOrders, stats.avgOrderValue,
                TopDishes(lines, dishes, PopularLimit))
  }

  /** The sales report as intended: every completed order of the end date counts. */
  function GetSalesReportThroughEndDate(orders: map<Id, Order>, orderListing: seq<Id>, items: map<Id, OrderItem>,
                                        itemListing: seq<Id>, dishes: map<Id, Dish>, start: int, end: int)
    : (r: SalesReport)
    requires Lists(orders, orderListing) && Lists(items, itemListing)
    ensures r.start == start && r.end == end
    ensures r.totalOrders == |KeysWhere(orders, OrderService.CompletedIn(start, end))|
    ensures r.totalRevenue == Sum(Filter(Rows(orders, orderListing), OrderService.CompletedIn(start, end)), OrderTotal)
    ensures r.totalOrders == 0 ==> r.totalRevenue == 0 && r.averageOrderValue == 0.0
    ensures r.averageOrderValue == Average(r.totalRevenue, r.totalOrders)
    ensures TopSold(r.popularDishes, Filter(Rows(items, itemListing),
                    DishSold(dishes, orders, OrderService.CompletedIn(start, end))), dishes, PopularLimit)
  {
    var stats := OrderService.GetOrderStatisticsThroughEndDate(orders, orderListing, start, end);
    var lines := Filter(Rows(items, itemListing), DishSold(dishes, orders, OrderService.CompletedIn(start, end)));
    SalesLinesHaveDishes(lines, dishes, orders, OrderService.CompletedIn(start, end));
    SalesReport(start, end, stats.totalRevenue, stats.totalOrders, stats.avgOrderValue,
                TopDishes(lines, dishes, PopularLimit))
  }

  /** A single completed order placed at 10:00 on the end date is missed by the sales
      report as written and counted by the corrected one. */
  lemma SalesReportMissesEndDay(o: Order, start: int, end: int)
    requires start <= end && o.status == Some(OrderService.Completed) && o.date == Midnight(end) + 600
    ensures GetSalesReport(map[o.id := o], [o.id], map[], [], map[], start, end).totalOrders == 0
    ensures GetSalesReportThroughEndDate(map[o.id := o], [o.id], map[], [], map[], start, end).totalOrders == 1
    ensures GetSalesReportThroughEndDate(map[o.id := o], [o.id], map[], [], map[], start, end).totalRevenue == o.total
  {
    OrderService.StatisticsMissEndDay(o, start, end);
  }

  /** A line of a single completed order placed at 10:00 on the end date adds nothing
      to the category report as written and its total to the corrected one. */
  lemma CategoryReportMissesEndDay(o: Order, it: OrderItem, d: Dish, c: Category, start: int, end: int)
    requires start <= end && o.status == Some(OrderService.Completed) && o.date == Midnight(end) + 600
    requires it.orderId == o.id && it.dishId == d.id && d.categoryId == c.id
    ensures GetCategoryReport(map[it.id := it], [it.id], map[d.id := d], map[c.id := c], map[o.id := o], start, end)
              .totalRevenue == 0
    ensures GetCategoryReportThroughEndDate(map[it.id := it], [it.id], map[d.id := d], map[c.id := c],
                                            map[o.id := o], start, end).totalRevenue == it.itemTotal
  {
    var items, dishes, categories, orders := map[it.id := it], map[d.id := d], map[c.id := c], map[o.id := o];
    OrderService.EndDateDropped(o, start, end);
    assert Rows(items, [it.id]) == [it];
    assert orders[it.orderId] == o && dishes[it.dishId].categoryId in categories;
    assert !OrderService.CompletedInWindow(start, end)(o) && OrderService.CompletedIn(start, end)(o);
    assert !SoldIn(orders, OrderService.CompletedInWindow(start, end))(it);
    assert SoldIn(orders, OrderService.CompletedIn(start, end))(it);
    assert !InCategory(dishes, categories, orders, OrderService.CompletedInWindow(start, end))(it);
    assert InCategory(dishes, categories, orders, OrderService.CompletedIn(start, end))(it);
    assert Filter([it], InCategory(dishes, categories, orders, OrderService.CompletedInWindow(start, end))) == [];
    assert Filter([it], InCategory(dishes, categories, orders, OrderService.CompletedIn(start, end))) == [it];
    assert Sum([it], ItemTotal) == it.itemTotal;
  }

  lemma SalesLinesHaveDishes(lines: seq<OrderItem>, dishes: map<Id, Dish>, orders: map<Id, Order>, counts: Order -> bool)
    requires forall i :: 0 <= i < |lines| ==> DishSold(dishes, orders, counts)(lines[i])
    ensures forall i :: 0 <= i < |lines| ==> lines[i].dishId in dishes
  {
  }
  // --------------------------------------------------------- category report

  /** One category of the report; the response shows its name, revenue and percentage. */
  datatype CategoryRevenue = CategoryRevenue(categoryId: Id, categoryName: string, revenue: Money, percentage: real)

  datatype CategoryReport = CategoryReport(start: int, end: int, totalRevenue: Money,
                                           revenueByCategory: seq<CategoryRevenue>)

  /** The joined rows of the category query: `Category JOIN Dish JOIN OrderItem JOIN Order` in the period. */
  function InCategory(dishes: map<Id, Dish>, categories: map<Id, Category>, orders: map<Id, Order>,
                      counts: Order -> bool): OrderItem -> bool
  {
    (it: OrderItem) =>
      it.dishId in dishes && dishes[it.dishId].categoryId in categories && SoldIn(orders, counts)(it)
  }

  /** The category a joined line is grouped under. */
  function CategoryOf(dishes: map<Id, Dish>): OrderItem -> Id {
    (it: OrderItem) => if it.dishId in dishes then dishes[it.dishId].categoryId else ""
  }

  function Revenue(c: CategoryRevenue): int { c.revenue }

  function RevenuePercentage(c: CategoryRevenue): real { c.percentage }

  function CategoryIdOf(c: CategoryRevenue): Id { c.categoryId }

  /** `GROUP BY Category.id, Category.name` with the summed item totals, and each
      category's share of their sum. */
  function CategoryRows(lines: seq<OrderItem>, dishes: map<Id, Dish>, categories: map<Id, Category>, total: Money)
    : (r: seq<CategoryRevenue>)
    requires forall i :: 0 <= i < |lines| ==> lines[i].dishId in dishes && dishes[lines[i].dishId].categoryId in categories
    ensures |r| == |KeysOf(lines, CategoryOf(dishes))|
    ensures forall i :: 0 <= i < |r| ==>
      && r[i].categoryId == KeysOf(lines, CategoryOf(dishes))[i]
      && r[i].categoryId in categories
      && r[i].categoryName == categories[r[i].categoryId].name
      && r[i].revenue == GroupTotal(lines, CategoryOf(dishes), ItemTotal, r[i].categoryId)
      && r[i].percentage == Share(r[i].revenue, total)
  {
    var ids := KeysOf(lines, CategoryOf(dishes));
    KeysAreCategories(lines, dishes, categories);
    seq(|ids|, i requires 0 <= i < |ids| =>
      var revenue := GroupTotal(lines, CategoryOf(dishes), ItemTotal, ids[i]);
      CategoryRevenue(ids[i], categories[ids[i]].name, revenue, Share(revenue, total)))
  }

  /** Every grouped category id names a stored category. */
  lemma KeysAreCategories(lines: seq<OrderItem>, dishes: map<Id, Dish>, categories: map<Id, Category>)
    requires forall i :: 0 <= i < |lines| ==> lines[i].dishId in dishes && dishes[lines[i].dishId].categoryId in categories
    ensures forall k :: k in KeysOf(lines, CategoryOf(dishes)) ==> k in categories
  {
    forall k | k in KeysOf(lines, CategoryOf(dishes))
      ensures k in categories
    {
      var i :| 0 <= i < |lines| && CategoryOf(dishes)(lines[i]) == k;
    }
  }

  /** The category revenues add up to the revenue of all joined lines, one row per category. */
  lemma CategoryRowsTotal(lines: seq<OrderItem>, dishes: map<Id, Dish>, categories: map<Id, Category>, total: Money)
    requires forall i :: 0 <= i < |lines| ==> lines[i].dishId in dishes && dishes[lines[i].dishId].categoryId in categories
    ensures Sum(CategoryRows(lines, dishes, categories, total), Revenue) == Sum(lines, ItemTotal)
    ensures DistinctBy(CategoryRows(lines, dishes, categories, total), CategoryIdOf)
  {
    var rows := CategoryRows(lines, dishes, categories, total);
    var ids := KeysOf(lines, CategoryOf(dishes));
    SumPointwise(rows, Revenue, ids, GroupTotalOf(lines, CategoryOf(dishes), ItemTotal));
    GroupTotalsSum(lines, CategoryOf(dishes), ItemTotal);
  }

  /** The report holds one row per category of the joined lines with that category's
      revenue, the total is the sum of all line totals and of the rows, and each
      percentage is the row's share of the total, the shares adding up to 100. */
  predicate ReportsCategories(r: CategoryReport, lines: seq<OrderItem>, dishes: map<Id, Dish>) {
    && r.totalRevenue == Sum(lines, ItemTotal)
    && r.totalRevenue == Sum(r.revenueByCategory, Revenue)
    && |r.revenueByCategory| == |KeysOf(lines, CategoryOf(dishes))|
    && (forall i :: 0 <= i < |r.revenueByCategory| ==>
          r.revenueByCategory[i].revenue == GroupTotal(lines, CategoryOf(dishes), ItemTotal, r.revenueByCategory[i].categoryId))
    && DistinctBy(r.revenueByCategory, CategoryIdOf)
    && (forall i :: 0 <= i < |r.revenueByCategory| ==>
          r.revenueByCategory[i].percentage == Share(r.revenueByCategory[i].revenue, r.totalRevenue))
    && (r.totalRevenue > 0 ==> SumReal(r.revenueByCategory, RevenuePercentage) == 100.0)
  }

  /** The category report over the joined lines of a period. */
  function CategoryReportOf(lines: seq<OrderItem>, dishes: map<Id, Dish>, categories: map<Id, Category>,
                            start: int, end: int): (r: CategoryReport)
    requires forall i :: 0 <= i < |lines| ==> lines[i].dishId in dishes && dishes[lines[i].dishId].categoryId in categories
    ensures r.start == start && r.end == end
    ensures ReportsCategories(r, lines, dishes)
  {
    var total := Sum(lines, ItemTotal);
    var rows := CategoryRows(lines, dishes, categories, total);
    CategoryRowsTotal(lines, dishes, categories, total);
    CategoryPercentages(rows, total);
    CategoryReport(start, end, total, rows)
  }

  /** `get_category_report` as written: the revenue of each category over the completed
      orders between the start date's and the end date's midnights. */
  function GetCategoryReport(items: map<Id, OrderItem>, itemListing: seq<Id>, dishes: map<Id, Dish>,
                             categories: map<Id, Category>, orders: map<Id, Order>, start: int, end: int)
    : (r: CategoryReport)
    requires forall k :: k in itemListing ==> k in items
    ensures r.start == start && r.end == end
    ensures ReportsCategories(r, Filter(Rows(items, itemListing),
                              InCategory(dishes, categories, orders, OrderService.CompletedInWindow(start, end))), dishes)
  {
    var lines := Filter(Rows(items, itemListing), InCategory(dishes, categories, orders, OrderService.CompletedInWindow(start, end)));
    CategoryLinesJoined(lines, dishes, categories, orders, OrderService.CompletedInWindow(start, end));
    CategoryReportOf(lines, dishes, categories, start, end)
  }

  /** The category report as intended: every completed order of the end date counts. */
  function GetCategoryReportThroughEndDate(items: map<Id, OrderItem>, itemListing: seq<Id>, dishes: map<Id, Dish>,
                                           categories: map<Id, Category>, orders: map<Id, Order>, start: int, end: int)
    : (r: CategoryReport)
    requires forall k :: k in itemListing ==> k in items
    ensures r.start == start && r.end == end
    ensures ReportsCategories(r, Filter(Rows(items, itemListing),
                              InCategory(dishes, categories, orders, OrderService.CompletedIn(start, end))), dishes)
  {
    var lines := Filter(Rows(items, itemListing), InCategory(dishes, categories, orders, OrderService.CompletedIn(start, end)));
    CategoryLinesJoined(lines, dishes, categories, orders, OrderService.CompletedIn(start, end));
    CategoryReportOf(lines, dishes, categories, start, end)
  }

  lemma CategoryLinesJoined(lines: seq<OrderItem>, dishes: map<Id, Dish>, categories: map<Id, Category>,
                            orders: map<Id, Order>, counts: Order -> bool)
    requires forall i :: 0 <= i < |lines| ==> InCategory(dishes, categories, orders, counts)(lines[i])
    ensures forall i :: 0 <= i < |lines| ==> lines[i].dishId in dishes && dishes[lines[i].dishId].categoryId in categories
  {
  }

  /** Percentages of a positive total that is the sum of the revenues add up to 100. */
  lemma CategoryPercentages(rows: seq<CategoryRevenue>, total: Money)
    requires total == Sum(rows, Revenue)
    requires forall i :: 0 <= i < |rows| ==> rows[i].percentage == Share(rows[i].revenue, total)
    ensures total > 0 ==> SumReal(rows, RevenuePercentage) == 100.0
  {
    if total > 0 {
      SharesSumToHundred(rows, Revenue, RevenuePercentage, total);
    }
  }

  // ---------------------------------------------------------- daily revenue

  datatype DailyRevenue = DailyRevenue(date: int, revenue: Money, orders: int)

  datatype DailyRevenueReport = DailyRevenueReport(start: int, end: int, dailyRevenues: seq<DailyRevenue>)

  /** The `days` argument, 30 when it is not given. */
  const DefaultDays: int := 30

  function DaysOrDefault(days: Option<int>): int {
    if days.Some? then days.value else DefaultDays
  }

  /** `func.date(order_date)`. */
  function OrderDay(o: Order): int { DayOf(o.date) }

  function One(o: Order): int { 1 }

  function Identity(d: int): int { d }

  /** One entry per date with that date's summed totals and number of orders. */
  function DailyRows(counted: seq<Order>, dates: seq<int>): (r: seq<DailyRevenue>)
    ensures |r| == |dates|
    ensures forall i :: 0 <= i < |r| ==>
      && r[i].date == dates[i]
      && r[i].revenue == GroupTotal(counted, OrderDay, OrderTotal, dates[i])
      && r[i].orders == GroupTotal(counted, OrderDay, One, dates[i])
  {
    seq(|dates|, i requires 0 <= i < |dates| =>
      DailyRevenue(dates[i], GroupTotal(counted, OrderDay, OrderTotal, dates[i]), GroupTotal(counted, OrderDay, One, dates[i])))
  }

  /** Each entry holds its date's revenue and order count over the counted orders, each
      date lies in the period, the dates ascend strictly, and the entries' dates are
      exactly the dates of the counted orders. */
  predicate ReportsDays(r: DailyRevenueReport, counted: seq<Order>) {
    && (forall i :: 0 <= i < |r.dailyRevenues| ==>
          && r.dailyRevenues[i].revenue == GroupTotal(counted, OrderDay, OrderTotal, r.dailyRevenues[i].date)
          && r.dailyRevenues[i].orders == GroupTotal(counted, OrderDay, One, r.dailyRevenues[i].date))
    && (forall i :: 0 <= i < |r.dailyRevenues| ==> r.start <= r.dailyRevenues[i].date <= r.end)
    && (forall i, j :: 0 <= i < j < |r.dailyRevenues| ==> r.dailyRevenues[i].date < r.dailyRevenues[j].date)
    && (forall q :: 0 <= q < |counted| ==>
          exists i :: 0 <= i < |r.dailyRevenues| && r.dailyRevenues[i].date == OrderDay(counted[q]))
    && (forall i :: 0 <= i < |r.dailyRevenues| ==>
          exists q :: 0 <= q < |counted| && OrderDay(counted[q]) == r.dailyRevenues[i].date)
  }

  /** The counted orders grouped by calendar date in ascending order. */
  function DailyReportOf(counted: seq<Order>, start: int, end: int): (r: DailyRevenueReport)
    requires forall i :: 0 <= i < |counted| ==> start <= OrderDay(counted[i]) <= end
    ensures r.start == start && r.end == end
    ensures ReportsDays(r, counted)
  {
    var dates := SortBy(KeysOf(counted, OrderDay), Identity);
    DatesFacts(counted, start, end, dates);
    RankedKeysCover(counted, OrderDay, Identity, dates);
    DailyRevenueReport(start, end, DailyRows(counted, dates))
  }

  /** `get_daily_revenue_report` as written: the completed orders from the midnight of
      `today - days` to today's midnight, grouped by calendar date in ascending order. */
  function GetDailyRevenueReport(orders: map<Id, Order>, listing: seq<Id>, today: int, days: Option<int>)
    : (r: DailyRevenueReport)
    requires Lists(orders, listing)
    ensures r.start == today - DaysOrDefault(days) && r.end == today
    ensures ReportsDays(r, Filter(Rows(orders, listing), OrderService.CompletedInWindow(r.start, r.end)))
  {
    var start := today - DaysOrDefault(days);
    var counted := Filter(Rows(orders, listing), OrderService.CompletedInWindow(start, today));
    WindowDays(counted, start, today);
    DailyReportOf(counted, start, today)
  }

  /** The daily report as intended: today's completed orders count too. */
  function GetDailyRevenueReportThroughToday(orders: map<Id, Order>, listing: seq<Id>, today: int, days: Option<int>)
    : (r: DailyRevenueReport)
    requires Lists(orders, listing)
    ensures r.start == today - DaysOrDefault(days) && r.end == today
    ensures ReportsDays(r, Filter(Rows(orders, listing), OrderService.CompletedIn(r.start, r.end)))
  {
    var start := today - DaysOrDefault(days);
    var counted := Filter(Rows(orders, listing), OrderService.CompletedIn(start, today));
    PeriodDays(counted, start, today);
    DailyReportOf(counted, start, today)
  }

  /** An order inside the window as written lies on a date of the period. */
  lemma WindowDays(counted: seq<Order>, start: int, end: int)
    requires forall i :: 0 <= i < |counted| ==> OrderService.CompletedInWindow(start, end)(counted[i])
    ensures forall i :: 0 <= i < |counted| ==> start <= OrderDay(counted[i]) <= end
  {
    forall i | 0 <= i < |counted|
      ensures start <= OrderDay(counted[i]) <= end
    {
      OrderService.InPeriodBounds(counted[i], start, end);
      assert OrderService.InWindowAsWritten(start, end)(counted[i]);
    }
  }

  lemma PeriodDays(counted: seq<Order>, start: int, end: int)
    requires forall i :: 0 <= i < |counted| ==> OrderService.CompletedIn(start, end)(counted[i])
    ensures forall i :: 0 <= i < |counted| ==> start <= OrderDay(counted[i]) <= end
  {
    forall i | 0 <= i < |counted|
      ensures start <= OrderDay(counted[i]) <= end
    {
      assert OrderService.InPeriod(start, end)(counted[i]);
    }
  }

  /** The grouped dates, sorted, are distinct dates of the period in ascending order. */
  lemma DatesFacts(counted: seq<Order>, start: int, end: int, dates: seq<int>)
    requires forall i :: 0 <= i < |counted| ==> start <= OrderDay(counted[i]) <= end
    requires dates == SortBy(KeysOf(counted, OrderDay), Identity)
    ensures forall i :: 0 <= i < |dates| ==> start <= dates[i] <= end
    ensures forall i, j :: 0 <= i < j < |dates| ==> dates[i] < dates[j]
  {
    KeysInPeriod(counted, start, end);
    SortByMembers(KeysOf(counted, OrderDay), Identity);
    DatesAscending(KeysOf(counted, OrderDay), dates);
  }

  /** Each grouped date is the date of a counted order, so it lies in the period. */
  lemma KeysInPeriod(counted: seq<Order>, start: int, end: int)
    requires forall i :: 0 <= i < |counted| ==> start <= OrderDay(counted[i]) <= end
    ensures forall k :: k in KeysOf(counted, OrderDay) ==> start <= k <= end
  {
    forall k | k in KeysOf(counted, OrderDay)
      ensures start <= k <= end
    {
      var q :| 0 <= q < |counted| && OrderDay(counted[q]) == k;
    }
  }

  /** Sorting distinct dates puts them in strictly ascending order. */
  lemma DatesAscending(keys: seq<int>, dates: seq<int>)
    requires Distinct(keys) && dates == SortBy(keys, Identity)
    ensures forall i, j :: 0 <= i < j < |dates| ==> dates[i] < dates[j]
  {
    assert DistinctBy(keys, Identity);
    SortByDistinctBy(keys, Identity, Identity);
    forall i, j | 0 <= i < j < |dates|
      ensures dates[i] < dates[j]
    {
      assert Identity(dates[i]) <= Identity(dates[j]) && Identity(dates[i]) != Identity(dates[j]);
    }
  }

  /** Every date on which a completed order of the window was placed has its entry. */
  lemma EveryDateListed(orders: map<Id, Order>, listing: seq<Id>, today: int, days: Option<int>, o: Order)
    requires Lists(orders, listing)
    requires o in orders.Values && OrderService.CompletedInWindow(today - DaysOrDefault(days), today)(o)
    ensures exists i ::
              && 0 <= i < |GetDailyRevenueReport(orders, listing, today, days).dailyRevenues|
              && GetDailyRevenueReport(orders, listing, today, days).dailyRevenues[i].date == DayOf(o.date)
  {
    var start := today - DaysOrDefault(days);
    var counts := OrderService.CompletedInWindow(start, today);
    var counted := Filter(Rows(orders, listing), counts);
    var q := StoredRowListed(orders, listing, counts, o);
    assert ReportsDays(GetDailyRevenueReport(orders, listing, today, days), counted);
  }

  /** As intended, every date up to and including today on which a completed order was
      placed has its entry. */
  lemma EveryDateThroughTodayListed(orders: map<Id, Order>, listing: seq<Id>, today: int, days: Option<int>, o: Order)
    requires Lists(orders, listing)
    requires o in orders.Values && OrderService.CompletedIn(today - DaysOrDefault(days), today)(o)
    ensures exists i ::
              && 0 <= i < |GetDailyRevenueReportThroughToday(orders, listing, today, days).dailyRevenues|
              && GetDailyRevenueReportThroughToday(orders, listing, today, days).dailyRevenues[i].date == DayOf(o.date)
  {
    var start := today - DaysOrDefault(days);
    var counts := OrderService.CompletedIn(start, today);
    var counted := Filter(Rows(orders, listing), counts);
    var q := StoredRowListed(orders, listing, counts, o);
    assert ReportsDays(GetDailyRevenueReportThroughToday(orders, listing, today, days), counted);
  }

  /** With no order counted, the report has no entry. */
  lemma NoEntriesWhenNoneCounted(orders: map<Id, Order>, listing: seq<Id>, today: int, days: Option<int>)
    requires Lists(orders, listing)
    requires Filter(Rows(orders, listing), OrderService.CompletedInWindow(today - DaysOrDefault(days), today)) == []
    ensures |GetDailyRevenueReport(orders, listing, today, days).dailyRevenues| == 0
  {
    var start := today - DaysOrDefault(days);
    var counted := Filter(Rows(orders, listing), OrderService.CompletedInWindow(start, today));
    assert ReportsDays(GetDailyRevenueReport(orders, listing, today, days), counted);
  }

  /** A single completed order placed at 10:00 today: the report as written has no entry
      at all, the corrected one has today's entry. */
  lemma DailyReportMissesToday(o: Order, today: int, days: Option<int>)
    requires DaysOrDefault(days) >= 0
    requires o.status == Some(OrderService.Completed) && o.date == Midnight(today) + 600
    ensures |GetDailyRevenueReport(map[o.id := o], [o.id], today, days).dailyRevenues| == 0
    ensures exists i ::
              && 0 <= i < |GetDailyRevenueReportThroughToday(map[o.id := o], [o.id], today, days).dailyRevenues|
              && GetDailyRevenueReportThroughToday(map[o.id := o], [o.id], today, days).dailyRevenues[i].date == today
  {
    var orders := map[o.id := o];
    var listing := [o.id];
    assert Lists(orders, listing);
    var start := today - DaysOrDefault(days);
    OrderService.EndDateDropped(o, start, today);
    assert Rows(orders, listing) == [o];
    NoEntriesWhenNoneCounted(orders, listing, today, days);
    assert o in orders.Values;
    DayOfBounds(o.date, today);
    EveryDateThroughTodayListed(orders, [o.id], today, days, o);
  }
}
