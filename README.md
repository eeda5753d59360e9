# Restaurant till: a verified model

This project models the core of a restaurant point-of-sale system in Dafny:

- the menu (categories and dishes);
- orders made of dish/quantity line items;
- the sales reports over them;
- the cashier's cart in the browser.

The backend comes in two variants that share one store:

- The **api variant** (`backend/src/api/`) prices every line on the server. It guards deletes with reference counts and applies a partial dish update.
- The **service-layer variant** (`backend/src/services/`, `backend/src/routers/cashier.py`) takes the line totals from the client. It checks availability and order status, and serves the quick sale and today's sales with hourly buckets.

The client side is three files:

- `cashier.js`: the cashier page's `currentOrder` cart;
- `orders.js`: the `OrderManager` class;
- `menu.js`: the `MenuManager` class.

Representation choices:

- **Store.** The database is a class `Store.Database` with one map per table, from primary key to row. The methods that write the store carry `modifies` clauses. A read takes a `listing`: the order in which the store returns the rows. `Store.Lists` requires it to enumerate the table's keys once each, so every property holds whatever row order the database picks.
- **Money.** Money is an integer number of kopecks, because every amount column is `Numeric(10,2)`.
- **Time.** A timestamp is an integer number of minutes. Its calendar date is `ts / 1440` and its hour `(ts % 1440) / 60`. "Today" and "now" are parameters.
- **Service-layer fields.** The service layer reads and writes `status`, `customer_name`, `customer_phone` and `is_available`. The shared models do not declare them, so `Order` carries them as options and `Dish` has an `available` flag.

Modules follow the source files:

| module | file |
|---|---|
| `Store` | the tables |
| `Seqs`, `Grouping` | sequence and group-by helpers |
| `ApiCashier` | `backend/src/api/cashier.py` |
| `ApiAdmin` | `backend/src/api/admin.py` |
| `ApiReports` | `backend/src/api/reports.py` |
| `OrderService` | `backend/src/services/order_service.py` |
| `ReportService` | `backend/src/services/report_service.py` |
| `MenuService` | `backend/src/services/menu_service.py` |
| `CashierRouter` | `backend/src/routers/cashier.py` |
| `CashierJs` | `frontend/js/cashier.js` |
| `OrdersJs` | `frontend/js/orders.js` |
| `MenuJs` | `frontend/js/menu.js` |

Three behaviours of the code are worth stating on their own:

- **Popular-dishes limit.** `limit` is declared as `Query(10, ge=1, le=50)` (`backend/src/api/reports.py:101`), so a limit outside 1..50 is answered with 422 by the framework and a missing one means 10. `ApiReports.PopularDishes` fails with `Unprocessable`.
- **Empty orders.** `create_order` of the api variant has no check for an empty item list, so `ApiCashier.CreateOrder` accepts an empty request and stores an order with total 0.
- **Report periods.** The service layer compares the `order_date` timestamp with plain dates (`order_service.py:101-102`, `report_service.py:22-23, 40-41, 84-85, 120-121`), so a period stops at the end date's midnight. `OrderService.GetOrderStatistics` and the three reports of `ReportService` count orders that way. The members ending in `ThroughEndDate` or `ThroughToday` count the whole end date; the Findings table sets the two side by side.

## Model

| member | source | states |
|---|---|---|
| Store.HourInRange | backend/src/routers/cashier.py:65 | the hour of an order date always lies in 0..23 |
| Store.DayOfBounds | backend/src/services/order_service.py:26-27 | a timestamp has calendar date d exactly when it lies in [midnight of d, midnight of d+1) |
| ApiCashier.GetMenu | backend/src/api/cashier.py:13-37 | the groups are keyed by exactly the category names of the joined dishes; each group holds the joined dishes of that name in query order |
| ApiCashier.GroupByCategoryName | backend/src/api/cashier.py:30-35 | the grouping loop builds one group per name, holding that name's entries in their original order |
| ApiCashier.GroupStep | backend/src/api/cashier.py:32-35 | one pass of the loop keeps the grouping invariant for one more entry |
| ApiCashier.EachDishInOneGroup | backend/src/api/cashier.py:30-37 | every dish lies in the group of its own category name and in no other group |
| ApiCashier.FirstUnknown | backend/src/api/cashier.py:55-60 | the index of the first requested dish that does not exist; every earlier dish exists; None exactly when all exist |
| ApiCashier.StagedItemsContent | backend/src/api/cashier.py:55-71 | each requested line, repeated dishes included, becomes its own row under its own fresh id; nothing else is staged |
| ApiCashier.StagedItemAt | backend/src/api/cashier.py:62-71 | line i is staged under the i-th id with item_total = dish price × quantity |
| ApiCashier.StagedItemsOwned | backend/src/api/cashier.py:64-70 | every staged row is stored under its own id and belongs to the new order |
| ApiCashier.StageLines | backend/src/api/cashier.py:55-74 | the loop stops at the first unknown dish; otherwise it stages every row and accumulates the sum of price × quantity |
| ApiCashier.CreateOrder | backend/src/api/cashier.py:42-85 | an unknown dish gives 404 naming it, with the zero-total header still stored and no items; otherwise the order is stored with total = Σ price × quantity, and its rows are added |
| ApiCashier.CreatedOrderOwnsItems | backend/src/api/cashier.py:55-74 | after a successful create, the order owns exactly the staged rows, one per requested line |
| ApiCashier.CreatedOrderTotalIsSumOfItems | backend/src/api/cashier.py:63-77 | each row's item_total is price × quantity, and the order total equals the sum of its rows' item totals |
| ApiCashier.BorschtAndTea | backend/src/api/cashier.py:63-74 | borscht at 120.50 ×2 and tea at 30.00 ×3 total 331.00 |
| ApiCashier.NewestFirstDescends | backend/src/api/cashier.py:102 | ordering by date descending leaves dates non-increasing |
| ApiCashier.GetTodayOrders | backend/src/api/cashier.py:93-118 | exactly today's orders, newest first, each with item_count = its number of line items |
| ApiCashier.Summarize | backend/src/api/cashier.py:104-116 | the loop makes one summary per fetched order, with its item count |
| ApiCashier.TodayOrdersAllListed | backend/src/api/cashier.py:100-102 | every stored order dated today is listed |
| ApiCashier.GetOrderDetails | backend/src/api/cashier.py:120-155 | an unknown order gives 500, because the 404 is caught by the blanket except; otherwise one line per joined item, and total = Σ stored item_total |
| ApiCashier.DetailLines | backend/src/api/cashier.py:134-145 | the loop gives one detail line per joined row and the running total of item totals |
| ApiAdmin.CreateCategory | backend/src/api/admin.py:19-26 | a new category under a fresh id with the given name; nothing else changes |
| ApiAdmin.UpdateCategory | backend/src/api/admin.py:28-38 | an unknown id gives 404; otherwise only the name is replaced |
| ApiAdmin.DishesInPositive | backend/src/api/admin.py:48-49 | the guard's dish count is positive exactly when some dish is filed under the category |
| ApiAdmin.DeleteCategory | backend/src/api/admin.py:40-57 | an unknown id gives 404; a category with dishes gives 400 with the count and nothing is deleted; otherwise the row is removed |
| ApiAdmin.CreateDish | backend/src/api/admin.py:75-92 | a non-existent category gives 404 and nothing is inserted; otherwise a new available dish |
| ApiAdmin.UpdateDish | backend/src/api/admin.py:94-115 | a missing dish or missing truthy target category gives 404 before any change; otherwise only the truthy fields overwrite |
| ApiAdmin.PatchedKeepsFalsyFields | backend/src/api/admin.py:102-111 | a price of 0 or an empty name or category id keeps the old value; each truthy field takes the new value |
| ApiAdmin.PatchedIdempotent | backend/src/api/admin.py:102-111 | sending the same dish update twice has the effect of sending it once |
| ApiAdmin.LinesWithDishPositive | backend/src/api/admin.py:125-126 | the guard's reference count is positive exactly when some order line refers to the dish |
| ApiAdmin.DeleteDish | backend/src/api/admin.py:117-134 | an unknown dish gives 404; a dish referenced by order lines gives 400 with the count and nothing is deleted; otherwise the row is removed |
| ApiAdmin.GetOrdersByDate | backend/src/api/admin.py:136-191 | a malformed start or end date gives 400 (start checked first); otherwise the orders within both optional inclusive bounds, newest first, each with its item count |
| ApiAdmin.SummariesInRange | backend/src/api/admin.py:162-189 | every listed order lies within the bounds, and the dates descend |
| ApiAdmin.OrdersByDateAllListed | backend/src/api/admin.py:147-164 | every stored order within the bounds is listed |
| ApiReports.GetDailyReport | backend/src/api/reports.py:12-46 | the date defaults to today; exactly that date's orders are counted; daily_total is their sum; average is total / count, or 0 when there are none |
| ApiReports.DailyEntries | backend/src/api/reports.py:31-38 | one entry per order, with its line count |
| ApiReports.DailyReportCountsThatDay | backend/src/api/reports.py:22-24 | a stored order is counted exactly when its calendar date is the report date |
| ApiReports.ByCategoryDistinct | backend/src/api/reports.py:61-70 | grouping by category name gives one row per name |
| ApiReports.ByCategoryCovers | backend/src/api/reports.py:61-70 | every sold line's category name has its row |
| ApiReports.ByCategoryTotals | backend/src/api/reports.py:61-78 | the per-category amounts add up to the amount of all joined lines |
| ApiReports.CategoryShares | backend/src/api/reports.py:75-88 | total = Σ amounts; each row's share is amount / total × 100, or 0 when the total is 0 |
| ApiReports.GetCategoryReport | backend/src/api/reports.py:48-97 | the period defaults to [today−7, today]; total_amount = Σ per-category amounts = Σ sold amounts; the percentages add up to 100 when the total is positive |
| ApiReports.DishTotals | backend/src/api/reports.py:105-112 | one row per sold dish, with the sum of its quantities and item totals over all time |
| ApiReports.KeysCatalogued | backend/src/api/reports.py:110-111 | every grouped dish and its category exist |
| ApiReports.RankingFacts | backend/src/api/reports.py:105-113 | the ranking holds one row per dish, each with that dish's totals, in descending order of quantity sold |
| ApiReports.RankingCovers | backend/src/api/reports.py:105-113 | every sold dish has a row in the ranking |
| ApiReports.TopOfRanking | backend/src/api/reports.py:113-115 | the first `limit` rows keep the ranking's properties, there are min(#dishes, limit) of them, and they are the most sold: a dish left out sold no more than any row kept |
| ApiReports.LeftOutSoldNoMore | backend/src/api/reports.py:113-115 | a dish missing from the first `limit` rows of the ranking sold no more than each of them |
| ApiReports.PopularDishes | backend/src/api/reports.py:99-125 | a missing limit means 10; a limit outside 1..50 gives 422; otherwise min(#dishes, limit) rows, one per dish, with sold and revenue summed over all time, ordered by sold descending, and no dish left out sold more than a dish returned |
| ApiReports.EverySoldDishRanked | backend/src/api/reports.py:105-115 | when no more dishes were sold than the limit, every sold dish appears |
| OrderService.FindUnavailable | backend/src/services/order_service.py:34-41 | the first item whose dish is missing or unavailable; None exactly when every dish can be ordered |
| OrderService.ItemRows | backend/src/services/order_service.py:58-67 | one row per requested item under its fresh id, with the item's quantity and client item_total |
| OrderService.CreateOrder | backend/src/services/order_service.py:31-71 | any missing or unavailable dish gives ValueError naming it and changes nothing; otherwise the order is stored with status "pending", total = Σ client item_totals, and one row per item |
| OrderService.CreatedItemsCount | backend/src/services/order_service.py:58-67 | after a create, the new order owns exactly the rows of the new ids, one per requested item |
| OrderService.CreatedItemsMatchTotal | backend/src/services/order_service.py:44-67 | after a create, the order's total equals the sum of its rows' item totals |
| OrderService.TotalTrustsClient | backend/src/services/order_service.py:44 | the stored total is the client's figure: tea at 30.00 ×2 claimed at 0.01 is stored as 0.01, where the api variant charges 60.00 |
| OrderService.GetOrders | backend/src/services/order_service.py:18-29 | exactly rows [skip, skip + limit) of the matching orders, newest first: at most `limit` stored orders, each passing the status and date_from filters, with dates descending |
| OrderService.NewestFirstMatching | backend/src/services/order_service.py:21-29 | the matching orders, sorted, are stored orders that pass the filter, in descending date order |
| OrderService.MatchingAreStored | backend/src/services/order_service.py:21-27 | every matching order is a stored order |
| OrderService.DateFromIsCalendarDate | backend/src/services/order_service.py:26-27 | `order_date >= date_from` holds exactly when the order's calendar date is date_from or later |
| OrderService.PagesJoin | backend/src/services/order_service.py:29 | consecutive offset/limit pages join into one page |
| OrderService.FirstPageHasAll | backend/src/services/order_service.py:21-29 | a first page at least as long as the number of matches holds every matching stored order |
| OrderService.Updated | backend/src/services/order_service.py:77-78 | under the assumed OrderUpdate schema (status, customer_name, customer_phone), an update never changes the id, the date or the total |
| OrderService.UpdatedFields | backend/src/services/order_service.py:77-78 | a field the request leaves unset keeps its value; a set field takes the new value, null included |
| OrderService.UpdatedIdempotent | backend/src/services/order_service.py:77-78 | the same update twice is the update once, and an empty update changes nothing |
| OrderService.UpdateOrder | backend/src/services/order_service.py:73-81 | an unknown id gives None with no change; otherwise the order becomes `Updated` and is returned |
| OrderService.Cascade | backend/src/services/order_service.py:84-89 | under the assumed cascading delete, exactly the rows of other orders are kept, unchanged |
| OrderService.CascadeRemovesOnlyThatOrder | backend/src/services/order_service.py:84-89 | under the assumed cascading delete, the deleted order has no rows left, and every other order keeps all of its rows |
| OrderService.DeleteOrder | backend/src/services/order_service.py:83-89 | an unknown id gives None with no change; otherwise the order is removed and returned, and its line items go with it under the assumed cascading delete |
| OrderService.EndDateDropped | backend/src/services/order_service.py:100-102 | as written, an order at 10:00 on the end date lies outside the window, although it falls in the period |
| OrderService.InPeriodBounds | backend/src/services/order_service.py:100-102 | the corrected period runs from the start date's midnight up to, but not including, the midnight after the end date, and it contains the window as written |
| OrderService.GetOrderStatistics | backend/src/services/order_service.py:91-110 | as written: counts the completed orders from the start date's midnight up to and including the end date's midnight, so the end date's later orders are left out; total_revenue = Σ of their totals; count, revenue and average are 0 when none qualify; average = revenue / count |
| OrderService.GetOrderStatisticsThroughEndDate | backend/src/services/order_service.py:96-110 | corrected: the same statistics over the completed orders of the whole period, end date included |
| OrderService.StatisticsMissEndDay | backend/src/services/order_service.py:100-106 | one completed order at 10:00 on the end date: the statistics as written count 0 orders, the corrected ones count it with its total |
| OrderService.StatisticsBounds | backend/src/services/order_service.py:96-104 | the average lies between the smallest and the largest total of the orders counted as written |
| ReportService.DishTotals | backend/src/services/report_service.py:28-45 | one row per dish sold in the period, with that dish's summed quantity and revenue |
| ReportService.KeysAreDishes | backend/src/services/report_service.py:33-35 | every grouped dish id names a stored dish |
| ReportService.TopDishes | backend/src/services/report_service.py:43-48 | the first n dishes by quantity: min(#dishes, n) distinct rows, each with its totals, in descending quantity, and no dish left out sold more than a dish kept |
| ReportService.LeftOutSoldNoMore | backend/src/services/report_service.py:46-48 | a dish missing from the top n sold no more than each of them |
| ReportService.RankedFacts | backend/src/services/report_service.py:43-47 | the ranked rows hold the totals of distinct dishes, in descending order of quantity |
| ReportService.EverySoldDishOnTop | backend/src/services/report_service.py:28-48 | when no more than n dishes were sold, every sold dish appears among the top n |
| ReportService.TopIsAllRanked | backend/src/services/report_service.py:46-48 | with at most n dishes sold, the top n are all of them, ranked |
| ReportService.GetSalesReport | backend/src/services/report_service.py:13-66 | as written: counts the completed orders from the start date's midnight up to the end date's midnight; total_revenue = Σ of their totals; 0 for empty aggregates; average = revenue / count; the 10 most sold dishes of those orders, distinct, by quantity descending, none left out selling more |
| ReportService.GetSalesReportThroughEndDate | backend/src/services/report_service.py:17-48 | corrected: the same report over the completed orders of the whole period, end date included |
| ReportService.SalesReportMissesEndDay | backend/src/services/report_service.py:21-25 | one completed order at 10:00 on the end date: the report as written counts 0 orders, the corrected one counts it with its total |
| ReportService.CategoryRows | backend/src/services/report_service.py:71-101 | one row per category of the period, with its name, summed revenue and share of the total |
| ReportService.KeysAreCategories | backend/src/services/report_service.py:74-77 | every grouped category id names a stored category |
| ReportService.CategoryRowsTotal | backend/src/services/report_service.py:87-92 | the category revenues add up to the revenue of all joined lines, one row per category |
| ReportService.GetCategoryReport | backend/src/services/report_service.py:68-107 | as written: the lines of completed orders from the start date's midnight up to the end date's midnight; one row per category with its revenue; total_revenue = Σ line totals = Σ rows; percentage = revenue / total × 100, or 0 when the total is 0; the percentages add up to 100 when the total is positive |
| ReportService.GetCategoryReportThroughEndDate | backend/src/services/report_service.py:71-107 | corrected: the same report over the completed orders of the whole period, end date included |
| ReportService.CategoryReportMissesEndDay | backend/src/services/report_service.py:83-92 | a line of one completed order at 10:00 on the end date: total revenue 0 as written, the line's total when corrected |
| ReportService.CategoryPercentages | backend/src/services/report_service.py:92-98 | the percentages of a positive total that is the sum of the revenues add up to 100 |
| ReportService.DailyRows | backend/src/services/report_service.py:115-136 | one entry per date, with that date's summed totals and order count |
| ReportService.GetDailyRevenueReport | backend/src/services/report_service.py:109-141 | as written: days defaults to 30; the completed orders from the midnight of today − days up to today's midnight, so today's later orders are missing; one entry per date in strictly ascending order, each with that date's revenue and order count, and an entry for a date exactly when a counted order was placed on it |
| ReportService.GetDailyRevenueReportThroughToday | backend/src/services/report_service.py:110-127 | corrected: the same report with every completed order of today included |
| ReportService.DailyReportMissesToday | backend/src/services/report_service.py:112-122 | one completed order at 10:00 today: the report as written has no entry, the corrected one has today's entry |
| ReportService.NoEntriesWhenNoneCounted | backend/src/services/report_service.py:115-127 | when no order passes the filter, the daily report has no entry |
| ReportService.WindowDays | backend/src/services/report_service.py:120-121 | an order inside the window as written lies on a date from today − days to today |
| ReportService.DatesFacts | backend/src/services/report_service.py:123-127 | the grouped dates are distinct, lie in the period, and are in ascending order |
| ReportService.KeysInPeriod | backend/src/services/report_service.py:119-124 | each grouped date is the date of a counted order, so it lies in the period |
| ReportService.DatesAscending | backend/src/services/report_service.py:125-127 | sorting distinct dates puts them in strictly ascending order |
| ReportService.EveryDateListed | backend/src/services/report_service.py:115-127 | every date with a completed order inside the window as written has its entry |
| ReportService.EveryDateThroughTodayListed | backend/src/services/report_service.py:115-127 | corrected: every date up to and including today with a completed order has its entry |
| ReportService.DailyReportOf | backend/src/services/report_service.py:123-141 | one entry per date with that date's revenue and order count, dates in the period and strictly ascending, and the entries' dates are exactly the dates of the counted orders |
| Grouping.RankedKeysCover | backend/src/services/report_service.py:123-127 | ranking the distinct keys keeps every row's key and adds none |
| MenuService.GetCategories | backend/src/services/menu_service.py:18-20 | exactly the rows [skip, skip+limit) of the categories table |
| MenuService.CategoryPagesJoin | backend/src/services/menu_service.py:20 | consecutive pages of categories join into one page |
| MenuService.CreateCategory | backend/src/services/menu_service.py:22-29 | a fresh id holding exactly the supplied name |
| MenuService.UpdateCategory | backend/src/services/menu_service.py:31-39 | an unknown id gives None with no change; otherwise the name changes only when it is set |
| MenuService.DeleteCategory | backend/src/services/menu_service.py:41-47 | an unknown id gives None; otherwise the category is removed and returned, with no check for dishes that refer to it; those dishes are assumed to be left unchanged |
| MenuService.GetDishes | backend/src/services/menu_service.py:56-67 | rows [skip, skip+limit) of the dishes matching the optional category and availability filters |
| MenuService.ShownAreStored | backend/src/services/menu_service.py:58-65 | every filtered dish is a stored dish |
| MenuService.FirstPageHasAllDishes | backend/src/services/menu_service.py:58-67 | a first page at least as long as the number of matches holds every matching stored dish |
| MenuService.CreateDish | backend/src/services/menu_service.py:69-76 | a fresh id holding exactly the supplied fields; the category is not checked |
| MenuService.Applied | backend/src/services/menu_service.py:82-83 | an update never changes the id |
| MenuService.SetFieldsAlwaysApply | backend/src/services/menu_service.py:82-83 | a set price of 0 or an empty name is written, where the api variant keeps the old value |
| MenuService.AppliedIdempotent | backend/src/services/menu_service.py:82-83 | the same update twice is the update once, and an empty update changes nothing |
| MenuService.UpdateDish | backend/src/services/menu_service.py:78-86 | an unknown id gives None with no change; otherwise every set field is written and the dish is returned |
| MenuService.DeleteDish | backend/src/services/menu_service.py:88-94 | an unknown id gives None; otherwise the dish is removed and returned, with no check for order lines that refer to it |
| MenuService.GetFullMenu | backend/src/services/menu_service.py:96-114 | all categories, and only the available dishes, each with its category |
| MenuService.WithCategories | backend/src/services/menu_service.py:105-109 | the loop pairs each dish with its category, in order |
| MenuService.FullMenuShowsAvailable | backend/src/services/menu_service.py:99-102 | a stored dish is shown exactly when it is available |
| CashierRouter.Upper | backend/src/routers/cashier.py:34 | `upper()` maps each character to its upper case and keeps the length |
| CashierRouter.UpperIdempotent | backend/src/routers/cashier.py:34 | upper-casing twice is upper-casing once |
| CashierRouter.ReceiptNumber | backend/src/routers/cashier.py:34 | "ЧЕК-" followed by the first 8 characters of the order id, upper-cased |
| CashierRouter.ReceiptsShareFirstEight | backend/src/routers/cashier.py:34 | two ids that agree, up to case, on their first 8 characters share a receipt number |
| CashierRouter.QuickSaleRequest | backend/src/routers/cashier.py:25-27 | the overwritten request keeps the items |
| CashierRouter.CreateQuickSale | backend/src/routers/cashier.py:14-39 | the name is overwritten with "Кассовый чек" and the phone cleared; a dish that cannot be ordered gives 400 naming the first such item, and changes nothing; otherwise the receipt is returned, the order is stored as "pending", one new order_items row is stored per request line, and the existing rows stay as they were |
| CashierRouter.PendingNotInTodaySales | backend/src/routers/cashier.py:53-57 | a pending order never passes today's sales filter or the reports' completed filter, as written or corrected |
| CashierRouter.CreateCompletedQuickSale | backend/src/routers/cashier.py:27-29 | corrected: the same 400 on the first dish that cannot be ordered; otherwise the quick sale is stored with status "completed", with one new order_items row per request line and the existing rows unchanged |
| CashierRouter.CompletedCountsToday | backend/src/routers/cashier.py:53-57 | a completed order placed today is counted in today's sales |
| CashierRouter.HourlySales | backend/src/routers/cashier.py:62-66 | each hour's bucket holds the sum of the totals of that hour's orders; only hours that occur get a bucket, and every bucket's hour lies in 0..23 |
| CashierRouter.GetTodaySales | backend/src/routers/cashier.py:43-74 | total_sales = #fetched; total_revenue = Σ totals = Σ hourly buckets; orders = the first 10 fetched; all of them completed and dated today or later |
| CashierRouter.FetchedFacts | backend/src/routers/cashier.py:53-57 | every fetched order is completed and dated today or later |
| CashierJs.Added | frontend/js/cashier.js:89-104 | the dish's line gets one more unit and total = quantity × price; otherwise a line of one unit is appended |
| CashierJs.AddedKeepsDishesUnique | frontend/js/cashier.js:89-104 | adding keeps one line per dish, and the dish has a line afterwards |
| CashierJs.AddedStaysPriced | frontend/js/cashier.js:94-95 | adding at the line's own price keeps every total = price × quantity |
| CashierJs.AddedRaisesTotal | frontend/js/cashier.js:89-104 | adding one unit raises the cart total by the price |
| CashierJs.AddedToLine | frontend/js/cashier.js:92-95 | one more unit of an existing line raises the cart total by the price |
| CashierJs.RemovedAt | frontend/js/cashier.js:171-172 | `splice(index, 1)` removes exactly the element at index, and the others keep their order |
| CashierJs.RemovedAtNegative | frontend/js/cashier.js:172 | a negative index counts from the end, clamped to the first line |
| CashierJs.RemovedAtKeepsOthers | frontend/js/cashier.js:172 | the remaining lines plus the removed one are the old cart, as a multiset |
| CashierJs.RemovedAtTotal | frontend/js/cashier.js:172 | removing a line takes its total off the cart total |
| CashierJs.RemovedAtKeepsInvariants | frontend/js/cashier.js:172 | removing keeps one line per dish and total = price × quantity |
| CashierJs.QuantityChanged | frontend/js/cashier.js:154-164 | below 1 the line is removed; otherwise it gets the new quantity and total = price × quantity, and the others are unchanged |
| CashierJs.QuantityChangedFacts | frontend/js/cashier.js:154-164 | a quantity change keeps the invariants and moves the cart total by the change in that line's total |
| CashierJs.Payload | frontend/js/cashier.js:198-203 | one `{dish_id, quantity}` per cart line, in cart order |
| CashierJs.PayloadNamesEachDishOnce | frontend/js/cashier.js:198-203 | a cart with one line per dish sends each dish once |
| CashierJs.CashierPage.constructor | frontend/js/cashier.js:2 | the page starts with an empty cart |
| CashierJs.CashierPage.UpdateSubmitButton | frontend/js/cashier.js:178-181 | the button is disabled exactly when the cart is empty |
| CashierJs.CashierPage.AddToOrder | frontend/js/cashier.js:89-108 | the cart becomes `Added`, and the button is enabled |
| CashierJs.CashierPage.RemoveFromOrder | frontend/js/cashier.js:171-175 | the cart becomes `RemovedAt`, and the button matches the cart |
| CashierJs.CashierPage.ChangeQuantity | frontend/js/cashier.js:154-168 | the cart becomes `QuantityChanged`, and the button matches the cart |
| CashierJs.CashierPage.ClearOrder | frontend/js/cashier.js:184-192 | a confirmed clear of a non-empty cart empties it and disables the button; otherwise nothing changes |
| CashierJs.CashierPage.DisplayedTotal | frontend/js/cashier.js:115-125 | the displayed total is the sum of the line totals, and 0 for an empty cart |
| CashierJs.CashierPage.SubmitOrder | frontend/js/cashier.js:195-250 | an empty cart sends nothing; otherwise the payload is sent, the cart is cleared only on success, and `finally` enables the button |
| CashierJs.SubmittedCartLeavesButtonEnabled | frontend/js/cashier.js:245-248 | as written: after a successful submit the cart is empty and the button is enabled |
| CashierJs.CashierPage.SubmitOrderKeepingButton | frontend/js/cashier.js:195-250 | corrected: as SubmitOrder, but afterwards the button matches the cart |
| CashierJs.SubmittedCartDisablesButton | frontend/js/cashier.js:245-248 | corrected: after a successful submit the cart is empty and the button is disabled |
| CashierJs.JsRem | frontend/js/cashier.js:341 | JavaScript's `%`: the remainder takes the sign of the dividend |
| CashierJs.Pluralize | frontend/js/cashier.js:339-342 | for n ≥ 0 and at least three words, one of the three words |
| CashierJs.PluralIndexInRange | frontend/js/cashier.js:341 | for n ≥ 0 the index lies in 0..2 and is the form the Russian rule picks |
| CashierJs.PluralIndexNegative | frontend/js/cashier.js:341 | a negative n gives the plural when it ends in 0, and `undefined` otherwise |
| CashierJs.PluralExamples | frontend/js/cashier.js:339-342 | 1 позиция, 22 позиции, 11 заказов |
| OrdersJs.Decimal | frontend/js/orders.js:42 | the decimal numeral of a number, made only of digits |
| OrdersJs.DecimalInjective | frontend/js/orders.js:42 | different numbers have different numerals |
| OrdersJs.CustomId | frontend/js/orders.js:42 | "custom_" followed by the clock reading |
| OrdersJs.CustomIdsDiffer | frontend/js/orders.js:42 | custom items added at different clock readings get different ids |
| OrdersJs.CustomAdded | frontend/js/orders.js:44-57 | the first line of the same name gets the units and a total at the new price; otherwise a custom line is appended |
| OrdersJs.CustomAddedKeepsPositive | frontend/js/orders.js:44-57 | adding keeps every line at one unit or more, and a line carries the name |
| OrdersJs.CustomAddedAtSamePrice | frontend/js/orders.js:44-57 | at the line's own price, totals stay price × quantity and the order total rises by price × quantity |
| OrdersJs.MergedAtSamePrice | frontend/js/orders.js:46-48 | a merge at the line's own price keeps total = price × quantity |
| OrdersJs.CustomMergeAtOtherPrice | frontend/js/orders.js:46-48 | a merge at another price leaves the old price with a total at the new one, so total ≠ price × quantity |
| OrdersJs.WithoutDish | frontend/js/orders.js:73-75 | every line of the dish goes; the others stay, in order |
| OrdersJs.WithoutDishTotal | frontend/js/orders.js:73-75 | removing takes exactly the dish's line totals off the order total |
| OrdersJs.WithoutUniqueDish | frontend/js/orders.js:73-75 | with one line per dish, removing the dish removes exactly its line |
| OrdersJs.WithoutUniqueDishTotal | frontend/js/orders.js:73-75 | with one line per dish, removing it takes that line's total off |
| OrdersJs.QuantitySet | frontend/js/orders.js:60-71 | an unknown dish changes nothing; below 1 the dish is removed; otherwise it gets the quantity and total = price × quantity |
| OrdersJs.QuantitySetKeepsInvariants | frontend/js/orders.js:60-71 | setting a quantity keeps lines positive, unique and priced |
| OrdersJs.WithoutDishKeepsInvariants | frontend/js/orders.js:73-75 | removing keeps lines positive, unique and priced |
| OrdersJs.QuantitySetTotal | frontend/js/orders.js:65-68 | the order total moves by the change of that line's total |
| OrdersJs.AddedKeepsPositive | frontend/js/orders.js:11-35 | adding a menu dish keeps every line at one unit or more |
| OrdersJs.UnitsCoverLines | frontend/js/orders.js:86-88 | with every line at one unit or more, there are at least as many units as lines |
| OrdersJs.PayloadItems | frontend/js/orders.js:102-106 | one `{dish_id, quantity, item_total}` per line, in order |
| OrdersJs.PayloadItemsAddUp | frontend/js/orders.js:102-106 | the item totals of the body add up to the order total |
| OrdersJs.PricedTotal | frontend/js/orders.js:82-84 | while every line is priced at its own price, the line totals add up to Σ price × quantity |
| OrdersJs.OrderManager.constructor | frontend/js/orders.js:5-9 | an empty order with no cash paid |
| OrdersJs.OrderManager.AddToOrder | frontend/js/orders.js:11-35 | a dish the menu does not know changes nothing; otherwise the dish is merged by id at the menu's price |
| OrdersJs.OrderManager.AddCustomItem | frontend/js/orders.js:37-58 | a missing quantity means 1; an empty name, a price ≤ 0 or a quantity < 1 throws and changes nothing; otherwise the items become `CustomAdded` |
| OrdersJs.OrderManager.UpdateItemQuantity | frontend/js/orders.js:60-71 | the items become `QuantitySet`, and the invariants are kept |
| OrdersJs.OrderManager.RemoveItem | frontend/js/orders.js:73-75 | the items become `WithoutDish`, and the invariants are kept |
| OrdersJs.OrderManager.ClearOrder | frontend/js/orders.js:77-80 | no items and no cash paid; the total and the change are 0 |
| OrdersJs.OrderManager.TotalAmount | frontend/js/orders.js:82-84 | the sum of the line totals: 0 for an empty order, and Σ price × quantity while every line is priced at its own price |
| OrdersJs.OrderManager.TotalQuantity | frontend/js/orders.js:86-88 | the number of units is at least the number of lines |
| OrdersJs.OrderManager.ChangeAmount | frontend/js/orders.js:90-92 | max(0, cashPaid − total): never negative, and 0 when the cash paid does not exceed the total |
| OrdersJs.OrderManager.SetCashPaid | frontend/js/orders.js:193-195 | the parsed amount, or 0 for NaN; the items are unchanged |
| OrdersJs.OrderManager.SaveOrder | frontend/js/orders.js:94-116 | an empty order throws before sending; otherwise the body has the name (default "Касса"), the phone and one item per line, whose item totals add up to the order total |
| MenuJs.OrEmpty | frontend/js/menu.js:15-16 | a missing list reads as empty |
| MenuJs.BucketKeys | frontend/js/menu.js:19-26 | the bucket keys are 'all' and the category ids |
| MenuJs.BucketOfCategory | frontend/js/menu.js:22-26 | a category's bucket holds the available dishes of that category |
| MenuJs.BucketOfAll | frontend/js/menu.js:19-20 | unless a category takes the key, 'all' holds exactly the available dishes, in order |
| MenuJs.BucketIsAvailableDishesOfCategory | frontend/js/menu.js:19-26 | a category's bucket holds exactly its available dishes and is a sub-sequence of 'all' |
| MenuJs.NoBucketForOtherKeys | frontend/js/menu.js:19-26 | any other key has no bucket |
| MenuJs.MenuManager.constructor | frontend/js/menu.js:5-10 | empty lists, no buckets, and the category shown is 'all' |
| MenuJs.MenuManager.LoadMenu | frontend/js/menu.js:12-33 | a failed request changes nothing; otherwise the lists are replaced and the buckets rebuilt |
| MenuJs.MenuManager.GetCategoryName | frontend/js/menu.js:35-38 | the name of the first category with the id, or 'Без категории' |
| MenuJs.MenuManager.GetDish | frontend/js/menu.js:40-42 | the first dish with the id, or None exactly when no dish has it |
| MenuJs.MenuManager.GetDishesByCategory | frontend/js/menu.js:44-46 | the bucket, or an empty list for a key without one |
| MenuJs.MenuManager.ChangeCategory | frontend/js/menu.js:95-96 | sets the category shown and changes nothing else in the menu state |

## Left out

- Floating point: `float(...)`, `round(…, 1)`, `toFixed` and `parseFloat` are left out. Money is exact kopecks. Averages and percentages are exact reals, so a percentage is not rounded to one decimal.
- The clock: `datetime.now()`, `date.today()`, `datetime.utcnow() + 3h` and `Date.now()` are not modelled. "Today", "now" and the clock reading are parameters.
- Fresh UUIDs are not generated. Callers supply fresh ids, and the preconditions require that they are not yet in the store.
- Date parsing: `strptime` of the admin date parameters is not modelled. `ApiAdmin.DateParam` takes its outcome as input: absent, a day number, or malformed.
- SQL row order is not modelled. Every read takes a `listing` of the table's keys. Ties between equal sort keys (equal dates, equal quantities sold) are broken by the listing, not by the database.
- The request schemas of the service layer, `schemas/orders.py` and `schemas/menu.py`, are not part of this model. The fields of the requests are taken from their use in the services. `OrderCreate` is taken to carry the `status` that the quick sale writes.
- Blanket `except` paths are left out: the 500 of `get_menu`, the 500 of `create_order` for a database error, and the quick sale's 500 for exceptions other than `ValueError`. Nothing in the model raises them. `ApiCashier.GetOrderDetails` does model the 500 of an unknown order.
- OrderService.Updated: `update_order` sets every field the request supplies, and the fields of `OrderUpdate` are not known from the code because `schemas/orders.py` is not part of this model. The model assumes that `OrderUpdate` has exactly `status`, `customer_name` and `customer_phone`. That an update leaves the id, the date and the total alone rests on this assumption. `OrderService.UpdateOrder` rests on it too.
- CashierRouter.Upper: covers only the Latin and Russian alphabets. Python's full Unicode case mapping is not modelled.
- Skip and limit are naturals. A negative offset or limit, which the database would reject, is not modelled.
- An `order_date` of NULL is not modelled. Every order has a timestamp, as `Order.__init__` sets one.
- The formatted `date` and `time` strings of the admin date listing are left out. Each entry carries the order's timestamp instead, and its `total` and `total_amount` are one value.
- The list endpoints `GET /categories` and `GET /dishes` of `backend/src/api/admin.py` are left out. They only return the tables.
- Browser plumbing is left out: DOM rendering, `fetch`, `async`, timers, notifications, confirmation dialogs, `renderOrderItems`, `renderOrderSummary`, `animateDishCard`, `displayMenu`, `loadTodayOrders` and `showNotification`. The server's answer to a submit or save is a parameter (`succeeded`), or it is not modelled at all (`OrdersJs.OrderManager.SaveOrder` returns the body it would post).
- JavaScript object identity is not modelled. Cart lines are values, so aliasing between the menu's dish objects and the cart is not captured.
- CashierJs.CashierPage.ChangeQuantity: requires an index that names a cart line. The page only renders such indices, and any other index makes `item.quantity` throw.
- OrderService.DeleteOrder: the ORM models the service layer imports (`models.orders`, `models.order_items`, `models.categories`) are not part of this model, so the effect of `db.delete` on dependent rows is not known from the code. The model assumes an effective ON DELETE CASCADE from order_items to orders. `backend/src/models/order_item.py`, the model class the API layer uses, declares ON DELETE CASCADE on the foreign key, but its `backref="items"` has no ORM delete cascade. So `db.delete` would set the lines' `order_id` to NULL, and SQLite without `PRAGMA foreign_keys` does not enforce the database cascade. The row-count assertion of `tests/test_models/test_order.py:84-104` holds under either behaviour. `OrderService.Cascade` and `OrderService.CascadeRemovesOnlyThatOrder` rest on the same assumption.
- MenuService.DeleteCategory: the model assumes the dishes of a deleted category are left unchanged. Under the backref of `backend/src/models/dish.py`, SQLAlchemy would set their `category_id` to NULL, and the model does not capture that.
- OrdersJs.OrderManager.SetCashPaid: a `parseFloat` result of NaN is passed as None. Fractional kopecks are not modelled.

## Findings

| source | as written | input that shows it | evidently intended | confidence | as-written member | corrected member |
|---|---|---|---|---|---|---|
| backend/src/services/order_service.py:101-102 | `order_date <= end_date` compares a DateTime with a date, so the bound is the end date's midnight | an order completed at 10:00 on the end date | every order of the end date counts | not executed | OrderService.StatisticsMissEndDay | OrderService.GetOrderStatisticsThroughEndDate |
| backend/src/services/report_service.py:22-23 | the sales report repeats the midnight bound | an order completed at 10:00 on the end date | every order of the end date counts | not executed | ReportService.SalesReportMissesEndDay | ReportService.GetSalesReportThroughEndDate |
| backend/src/services/report_service.py:84-85 | the category report repeats the midnight bound | a line of an order completed at 10:00 on the end date | every order of the end date counts | not executed | ReportService.CategoryReportMissesEndDay | ReportService.GetCategoryReportThroughEndDate |
| backend/src/services/report_service.py:120-121 | the daily revenue report ends at today's midnight | an order completed at 10:00 today | today's orders are listed | not executed | ReportService.DailyReportMissesToday | ReportService.GetDailyRevenueReportThroughToday |
| backend/src/routers/cashier.py:27 | the quick sale writes status "completed" into the request, but `create_order` always stores "pending" (order_service.py:53) | any quick sale: the stored order is pending, so today's sales and the reports never count it | quick sales are stored as completed | not executed | CashierRouter.PendingNotInTodaySales | CashierRouter.CreateCompletedQuickSale |
| frontend/js/cashier.js:245-248 | `finally` sets `submitButton.disabled = false` after a successful submit has emptied the cart | a one-line cart submitted successfully: empty cart, button enabled | the button follows the cart (`updateSubmitButton`) | not executed | CashierJs.SubmittedCartLeavesButtonEnabled | CashierJs.CashierPage.SubmitOrderKeepingButton |
