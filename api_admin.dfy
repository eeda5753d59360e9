/** The administration endpoints of the api variant (backend/src/api/admin.py):
    category and dish maintenance with referential guards, the partial dish
    update, and the order listing by date range. */
module ApiAdmin {
  import opened Seqs
  import opened Store
  import ApiCashier

  // ------------------------------------------------------------ categories

  /** POST /categories: a new row under a fresh id holding the given name. */
  method CreateCategory(db: Database, categoryId: Id, name: string) returns (created: Category)
    requires db.Valid() && categoryId !in db.categories
    modifies db
    ensures db.Valid()
    ensures created == Category(categoryId, name)
    ensures db.categories == old(db.categories)[categoryId := created]
    ensures db.dishes == old(db.dishes) && db.orders == old(db.orders) && db.items == old(db.items)
  {
    created := Category(categoryId, name);
    db.categories := db.categories[categoryId := created];
  }

  /** PUT /categories/{id}: 404 for an unknown id, otherwise only the name is replaced. */
  method UpdateCategory(db: Database, categoryId: Id, name: string) returns (r: Result<Category, HttpError>)
    requires db.Valid()
    modifies db
    ensures db.Valid()
    ensures categoryId !in old(db.categories) <==> r == Failure(NotFound(""))
    ensures categoryId !in old(db.categories) ==> db.categories == old(db.categories)
    ensures categoryId in old(db.categories) ==>
      && r == Success(old(db.categories)[categoryId].(name := name))
      && db.categories == old(db.categories)[categoryId := r.value]
    ensures db.dishes == old(db.dishes) && db.orders == old(db.orders) && db.items == old(db.items)
  {
    if categoryId !in db.categories {
      return Failure(NotFound(""));
    }
    var category := db.categories[categoryId];
    category := category.(name := name);
    db.categories := db.categories[categoryId := category];
    r := Success(category);
  }

  /** The number of dishes filed under the category (`filter(category_id == id).count()`). */
  function DishesIn(dishes: map<Id, Dish>, categoryId: Id): nat {
    |set k | k in dishes && dishes[k].categoryId == categoryId|
  }

  /** The guard's count is positive exactly when some dish is filed under the category. */
  lemma DishesInPositive(dishes: map<Id, Dish>, categoryId: Id)
    ensures DishesIn(dishes, categoryId) > 0 <==> exists k :: k in dishes && dishes[k].categoryId == categoryId
  {
    var filed := set k | k in dishes && dishes[k].categoryId == categoryId;
    if k :| k in dishes && dishes[k].categoryId == categoryId {
      assert k in filed;
    }
  }

  /** DELETE /categories/{id}: 404 for an unknown id, 400 with the dish count while any
      dish is filed under it (nothing is deleted), otherwise the row is removed. */
  method DeleteCategory(db: Database, categoryId: Id) returns (r: Result<(), HttpError>)
    requires db.Valid()
    modifies db
    ensures db.Valid()
    ensures categoryId !in old(db.categories) ==> r == Failure(NotFound(""))
    ensures categoryId in old(db.categories) && DishesIn(db.dishes, categoryId) > 0 ==>
      r == Failure(InUse(DishesIn(db.dishes, categoryId)))
    ensures r.Success? <==> categoryId in old(db.categories) && DishesIn(db.dishes, categoryId) == 0
    ensures db.categories == if r.Success? then old(db.categories) - {categoryId} else old(db.categories)
    ensures db.dishes == old(db.dishes) && db.orders == old(db.orders) && db.items == old(db.items)
  {
    if categoryId !in db.categories {
      return Failure(NotFound(""));
    }
    var dishesCount := DishesIn(db.dishes, categoryId);
    if dishesCount > 0 {
      return Failure(InUse(dishesCount));
    }
    db.categories := db.categories - {categoryId};
    r := Success(());
  }

  // ---------------------------------------------------------------- dishes

  /** POST /dishes: 404 and no insert when the category does not exist; otherwise a new,
      available dish under a fresh id. */
  method CreateDish(db: Database, dishId: Id, name: string, price: Money, categoryId: Id)
    returns (r: Result<Dish, HttpError>)
    requires db.Valid() && dishId !in db.dishes
    modifies db
    ensures db.Valid()
    ensures categoryId !in db.categories <==> r == Failure(NotFound(""))
    ensures categoryId in db.categories ==> r == Success(Dish(dishId, categoryId, name, price, true))
    ensures db.dishes == if r.Success? then old(db.dishes)[dishId := r.value] else old(db.dishes)
    ensures db.categories == old(db.categories) && db.orders == old(db.orders) && db.items == old(db.items)
  {
    if categoryId !in db.categories {
      return Failure(NotFound(""));
    }
    var dish := Dish(dishId, categoryId, name, price, true);
    db.dishes := db.dishes[dishId := dish];
    r := Success(dish);
  }

  /** The optional fields of a dish update request. */
  datatype DishUpdate = DishUpdate(name: Option<string>, price: Option<Money>, categoryId: Option<Id>)

  /** Python truthiness of an optional string: present and non-empty. */
  predicate TruthyText(s: Option<string>) { s.Some? && s.value != "" }

  /** Python truthiness of an optional amount: present and non-zero. */
  predicate TruthyAmount(p: Option<Money>) { p.Some? && p.value != 0 }

  /** The dish after the update: each truthy field overwrites, every other field stays. */
  function Patched(d: Dish, u: DishUpdate): Dish {
    d.(categoryId := if TruthyText(u.categoryId) then u.categoryId.value else d.categoryId,
       name := if TruthyText(u.name) then u.name.value else d.name,
       price := if TruthyAmount(u.price) then u.price.value else d.price)
  }

  /** PUT /dishes/{id}: 404 for an unknown dish, or for a truthy category that does not
      exist, before any field changes; otherwise the dish becomes `Patched`. */
  method UpdateDish(db: Database, dishId: Id, u: DishUpdate) returns (r: Result<Dish, HttpError>)
    requires db.Valid()
    modifies db
    ensures db.Valid()
    ensures dishId !in old(db.dishes) ==> r == Failure(NotFound(""))
    ensures dishId in old(db.dishes) && TruthyText(u.categoryId) && u.categoryId.value !in db.categories ==>
      r == Failure(NotFound(""))
    ensures r.Success? <==>
      dishId in old(db.dishes) && (TruthyText(u.categoryId) ==> u.categoryId.value in db.categories)
    ensures r.Success? ==> r.value == Patched(old(db.dishes)[dishId], u)
    ensures db.dishes == if r.Success? then old(db.dishes)[dishId := r.value] else old(db.dishes)
    ensures db.categories == old(db.categories) && db.orders == old(db.orders) && db.items == old(db.items)
  {
    if dishId !in db.dishes {
      return Failure(NotFound(""));
    }
    var dish := db.dishes[dishId];
    if u.categoryId.Some? && u.categoryId.value != "" {
      if u.categoryId.value !in db.categories {
        return Failure(NotFound(""));
      }
      dish := dish.(categoryId := u.categoryId.value);
    }
    if u.name.Some? && u.name.value != "" {
      dish := dish.(name := u.name.value);
    }
    if u.price.Some? && u.price.value != 0 {
      dish := dish.(price := u.price.value);
    }
    db.dishes := db.dishes[dishId := dish];
    r := Success(dish);
  }

  /** A price of 0, an empty name or an empty category id leaves the old value: only
      truthy fields overwrite. The id and the availability never change. */
  lemma PatchedKeepsFalsyFields(d: Dish, u: DishUpdate)
    ensures Patched(d, u).id == d.id && Patched(d, u).available == d.available
    ensures !TruthyAmount(u.price) ==> Patched(d, u).price == d.price
    ensures !TruthyText(u.name) ==> Patched(d, u).name == d.name
    ensures !TruthyText(u.categoryId) ==> Patched(d, u).categoryId == d.categoryId
    ensures TruthyAmount(u.price) ==> Patched(d, u).price == u.price.value
    ensures TruthyText(u.name) ==> Patched(d, u).name == u.name.value
    ensures TruthyText(u.categoryId) ==> Patched(d, u).categoryId == u.categoryId.value
  {
  }

  /** Sending the same update twice has the effect of sending it once. */
  lemma PatchedIdempotent(d: Dish, u: DishUpdate)
    ensures Patched(Patched(d, u), u) == Patched(d, u)
  {
  }

  /** The number of order lines that refer to the dish (`filter(dish_id == id).count()`). */
  function LinesWithDish(items: map<Id, OrderItem>, dishId: Id): nat {
    |set k | k in items && items[k].dishId == dishId|
  }

  /** The guard's count is positive exactly when some order line refers to the dish. */
  lemma LinesWithDishPositive(items: map<Id, OrderItem>, dishId: Id)
    ensures LinesWithDish(items, dishId) > 0 <==> exists k :: k in items && items[k].dishId == dishId
  {
    var lines := set k | k in items && items[k].dishId == dishId;
    if k :| k in items && items[k].dishId == dishId {
      assert k in lines;
    }
  }

  /** DELETE /dishes/{id}: 404 for an unknown dish, 400 with the number of order lines
      that refer to it (nothing is deleted), otherwise the row is removed. */
  method DeleteDish(db: Database, dishId: Id) returns (r: Result<(), HttpError>)
    requires db.Valid()
    modifies db
    ensures db.Valid()
    ensures dishId !in old(db.dishes) ==> r == Failure(NotFound(""))
    ensures dishId in old(db.dishes) && LinesWithDish(db.items, dishId) > 0 ==>
      r == Failure(InUse(LinesWithDish(db.items, dishId)))
    ensures r.Success? <==> dishId in old(db.dishes) && LinesWithDish(db.items, dishId) == 0
    ensures db.dishes == if r.Success? then old(db.dishes) - {dishId} else old(db.dishes)
    ensures db.categories == old(db.categories) && db.orders == old(db.orders) && db.items == old(db.items)
  {
    if dishId !in db.dishes {
      return Failure(NotFound(""));
    }
    var orderItemsCount := LinesWithDish(db.items, dishId);
    if orderItemsCount > 0 {
      return Failure(InUse(orderItemsCount));
    }
    db.dishes := db.dishes - {dishId};
    r := Success(());
  }

  // --------------------------------------------------------- orders by date

  /** A `YYYY-MM-DD` query parameter: absent or empty, a parsed day number, or text
      that `strptime` rejects. */
  datatype DateParam = Absent | Given(day: int) | Malformed

  /** The optional inclusive bounds on the calendar date (`func.date(order_date) >= start`, `<= end`). */
  function InDateRange(start: DateParam, end: DateParam): Order -> bool {
    (o: Order) =>
      && (start.Given? ==> start.day <= DayOf(o.date))
      && (end.Given? ==> DayOf(o.date) <= end.day)
  }

  /** GET /orders/by-date: 400 naming the first malformed bound; otherwise the orders whose
      calendar date lies within both given bounds, newest first, each with its line count.
      The response's `total` and `total_amount` carry the same value, the summary's total. */
  method GetOrdersByDate(db: Database, start: DateParam, end: DateParam, listing: seq<Id>)
    returns (r: Result<seq<ApiCashier.OrderSummary>, HttpError>)
    requires Lists(db.orders, listing)
    ensures start.Malformed? ==> r == Failure(BadRequest("start_date"))
    ensures !start.Malformed? && end.Malformed? ==> r == Failure(BadRequest("end_date"))
    ensures r.Success? <==> !start.Malformed? && !end.Malformed?
    ensures r.Success? ==>
      var picked := SortBy(Filter(Rows(db.orders, listing), InDateRange(start, end)), ApiCashier.NewestFirst);
      && |r.value| == |picked|
      && (forall i :: 0 <= i < |r.value| ==> r.value[i] == ApiCashier.SummaryOf(picked[i], db.items))
    ensures r.Success? ==> forall i :: 0 <= i < |r.value| ==>
      && (start.Given? ==> start.day <= DayOf(r.value[i].date))
      && (end.Given? ==> DayOf(r.value[i].date) <= end.day)
    ensures r.Success? ==> forall i, j :: 0 <= i < j < |r.value| ==> r.value[i].date >= r.value[j].date
  {
    if start.Malformed? {
      return Failure(BadRequest("start_date"));
    }
    if end.Malformed? {
      return Failure(BadRequest("end_date"));
    }
    var rows := Rows(db.orders, listing);
    var orders := SortBy(Filter(rows, InDateRange(start, end)), ApiCashier.NewestFirst);
    SortedFilterKeeps(rows, InDateRange(start, end), ApiCashier.NewestFirst);
    var result := ApiCashier.Summarize(orders, db.items);
    SummariesInRange(orders, db.items, result, start, end);
    r := Success(result);
  }

  /** The summaries of orders sorted newest first within the bounds keep both facts. */
  lemma SummariesInRange(orders: seq<Order>, items: map<Id, OrderItem>, summaries: seq<ApiCashier.OrderSummary>,
                         start: DateParam, end: DateParam)
    requires forall i :: 0 <= i < |orders| ==> InDateRange(start, end)(orders[i])
    requires SortedBy(orders, ApiCashier.NewestFirst)
    requires |summaries| == |orders|
    requires forall i :: 0 <= i < |summaries| ==> summaries[i] == ApiCashier.SummaryOf(orders[i], items)
    ensures forall i :: 0 <= i < |summaries| ==>
      && (start.Given? ==> start.day <= DayOf(summaries[i].date))
      && (end.Given? ==> DayOf(summaries[i].date) <= end.day)
    ensures forall i, j :: 0 <= i < j < |summaries| ==> summaries[i].date >= summaries[j].date
  {
    ApiCashier.NewestFirstDescends(orders);
  }

  /** Every stored order whose date lies within the bounds is listed. */
  lemma OrdersByDateAllListed(orders: map<Id, Order>, listing: seq<Id>, start: DateParam, end: DateParam)
    requires Lists(orders, listing)
    ensures var picked := SortBy(Filter(Rows(orders, listing), InDateRange(start, end)), ApiCashier.NewestFirst);
      forall k :: k in orders && InDateRange(start, end)(orders[k]) ==> orders[k] in picked
  {
    SortedFilterHasAll(orders, listing, InDateRange(start, end), ApiCashier.NewestFirst);
  }
}
