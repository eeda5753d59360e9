/** The relational store shared by both backend variants: the categories,
    dishes, orders and order_items tables as maps from primary key to row.

    Money is an integer number of kopecks (every amount column is Numeric(10,2)).
    A timestamp is an integer number of minutes; its calendar date is the day
    number `ts / 1440` and its hour `(ts % 1440) / 60`. */
module Store {
  import opened Seqs

  type Id = string
  type Money = int
  type Timestamp = int

  const MinutesPerDay: int := 1440

  /** The calendar date of a timestamp (`func.date(order_date)`, `.date()`). */
  function DayOf(ts: Timestamp): int { ts / MinutesPerDay }

  /** Minutes since midnight of the timestamp's own day. */
  function MinuteOfDay(ts: Timestamp): int { ts % MinutesPerDay }

  /** The hour of a timestamp (`order_date.hour`). */
  function HourOf(ts: Timestamp): int { MinuteOfDay(ts) / 60 }

  /** A date compared with a DateTime column stands for that date's midnight. */
  function Midnight(day: int): Timestamp { day * MinutesPerDay }

  lemma HourInRange(ts: Timestamp)
    ensures 0 <= HourOf(ts) < 24
  {
  }

  /** A timestamp lies on day d exactly when it is in [midnight d, midnight d+1). */
  lemma DayOfBounds(ts: Timestamp, d: int)
    ensures DayOf(ts) == d <==> Midnight(d) <= ts < Midnight(d + 1)
  {
  }

  datatype Category = Category(id: Id, name: string)

  /** `available` is the `is_available` column of the service-layer variant. */
  datatype Dish = Dish(id: Id, categoryId: Id, name: string, price: Money, available: bool)

  /** `status`, `customerName` and `customerPhone` exist only in the service-layer
      variant; orders written by the api variant carry None there. */
  datatype Order = Order(id: Id, date: Timestamp, total: Money, status: Option<string>,
                         customerName: Option<string>, customerPhone: Option<string>)

  datatype OrderItem = OrderItem(id: Id, orderId: Id, dishId: Id, quantity: int, itemTotal: Money)

  /** The errors an endpoint raises as HTTPException, by the value its detail names. */
  datatype HttpError =
    | NotFound(subject: Id)        // 404; the id the detail names, or "" when it names none
    | InUse(count: nat)            // 400; the number of rows that still refer to the entity
    | BadRequest(subject: string)  // 400; the rejected parameter or the ValueError's subject
    | Unprocessable                // 422; a query parameter outside its declared bounds
    | ServerError                  // 500
  {
    function Status(): int {
      match this
      case NotFound(_) => 404
      case InUse(_) => 400
      case BadRequest(_) => 400
      case Unprocessable => 422
      case ServerError => 500
    }
  }

  function OrderTotal(o: Order): int { o.total }

  function ItemTotal(it: OrderItem): int { it.itemTotal }

  function ItemQuantity(it: OrderItem): int { it.quantity }

  function DishOf(it: OrderItem): Id { it.dishId }

  /** `listing` enumerates the keys of m once each: the order in which the store returns the rows. */
  ghost predicate Lists<T>(m: map<Id, T>, listing: seq<Id>) {
    Distinct(listing) && (forall k :: k in m <==> k in listing)
  }

  /** A listing has one entry per stored row. */
  lemma ListingSize<T>(m: map<Id, T>, listing: seq<Id>)
    requires Lists(m, listing)
    ensures |listing| == |m|
  {
    DistinctCardinality(listing);
    assert (set i | 0 <= i < |listing| :: listing[i]) == m.Keys;
  }

  /** The rows of m in the order of the listing. */
  function Rows<T>(m: map<Id, T>, listing: seq<Id>): (r: seq<T>)
    requires forall k :: k in listing ==> k in m
    ensures |r| == |listing|
    ensures forall i :: 0 <= i < |r| ==> r[i] == m[listing[i]]
  {
    seq(|listing|, i requires 0 <= i < |listing| => m[listing[i]])
  }

  /** Sorting the filtered rows keeps only rows that pass the filter. */
  lemma SortedFilterKeeps<T(!new)>(rows: seq<T>, p: T -> bool, key: T -> int)
    ensures forall i :: 0 <= i < |SortBy(Filter(rows, p), key)| ==> p(SortBy(Filter(rows, p), key)[i])
  {
    var kept := Filter(rows, p);
    var sorted := SortBy(kept, key);
    forall i | 0 <= i < |sorted| ensures p(sorted[i]) {
      assert sorted[i] in multiset(sorted);
      assert sorted[i] in kept;
    }
  }

  /** Every stored row that passes the filter is in the sorted, filtered listing. */
  lemma SortedFilterHasAll<T(!new)>(m: map<Id, T>, listing: seq<Id>, p: T -> bool, key: T -> int)
    requires Lists(m, listing)
    ensures forall k :: k in m && p(m[k]) ==> m[k] in SortBy(Filter(Rows(m, listing), p), key)
  {
    var rows := Rows(m, listing);
    var kept := Filter(rows, p);
    forall k | k in m && p(m[k])
      ensures m[k] in SortBy(kept, key)
    {
      var i :| 0 <= i < |listing| && listing[i] == k;
      assert rows[i] == m[k];
      assert m[k] in kept;
      assert m[k] in multiset(SortBy(kept, key));
    }
  }

  /** A stored row that passes the filter has a position in the filtered listing. */
  lemma StoredRowListed<T(!new)>(m: map<Id, T>, listing: seq<Id>, p: T -> bool, x: T) returns (q: nat)
    requires Lists(m, listing) && x in m.Values && p(x)
    ensures q < |Filter(Rows(m, listing), p)| && Filter(Rows(m, listing), p)[q] == x
  {
    var k :| k in m && m[k] == x;
    var i :| 0 <= i < |listing| && listing[i] == k;
    assert Rows(m, listing)[i] == x;
    var kept := Filter(Rows(m, listing), p);
    assert x in kept;
    q :| 0 <= q < |kept| && kept[q] == x;
  }

  /** Filtering the listed rows keeps one row per stored key that passes the filter. */
  lemma {:induction false} FilterRowsCount<T(!new)>(m: map<Id, T>, listing: seq<Id>, p: T -> bool)
    requires Distinct(listing) && forall k :: k in listing ==> k in m
    ensures |Filter(Rows(m, listing), p)| == |set k | k in listing && p(m[k])|
    decreases |listing|
  {
    if listing != [] {
      var n := |listing| - 1;
      FilterRowsCount(m, listing[..n], p);
      RowsStep(m, listing, p);
      KeysStep(m, listing, p);
    }
  }

  /** The filtered rows of a listing are those of the listing without its last key, plus that key's row if it passes. */
  lemma RowsStep<T(!new)>(m: map<Id, T>, listing: seq<Id>, p: T -> bool)
    requires listing != [] && forall k :: k in listing ==> k in m
    ensures |Filter(Rows(m, listing), p)|
         == |Filter(Rows(m, listing[..|listing| - 1]), p)| + (if p(m[listing[|listing| - 1]]) then 1 else 0)
  {
    var n := |listing| - 1;
    assert Rows(m, listing)[..n] == Rows(m, listing[..n]);
    FilterPrefix(Rows(m, listing), n, p);
    assert Rows(m, listing)[..n + 1] == Rows(m, listing);
  }

  /** The passing keys of a listing without repeats are those before its last key, plus that key if it passes. */
  lemma KeysStep<T(!new)>(m: map<Id, T>, listing: seq<Id>, p: T -> bool)
    requires listing != [] && Distinct(listing) && forall k :: k in listing ==> k in m
    ensures |set k | k in listing && p(m[k])|
         == |set k | k in listing[..|listing| - 1] && p(m[k])| + (if p(m[listing[|listing| - 1]]) then 1 else 0)
  {
    var n := |listing| - 1;
    var last := listing[n];
    var before := set k | k in listing[..n] && p(m[k]);
    assert forall k :: k in listing <==> k in listing[..n] || k == last;
    assert last !in listing[..n];
    if p(m[last]) {
      assert (set k | k in listing && p(m[k])) == before + {last};
    } else {
      assert (set k | k in listing && p(m[k])) == before;
    }
  }

  /** The keys of the stored rows that pass the filter (`WHERE p`). */
  function KeysWhere<T>(m: map<Id, T>, p: T -> bool): set<Id> {
    set k | k in m && p(m[k])
  }

  /** Filtering the listed rows keeps one row per stored row that passes the filter. */
  lemma ListedCount<T(!new)>(m: map<Id, T>, listing: seq<Id>, p: T -> bool)
    requires Lists(m, listing)
    ensures |Filter(Rows(m, listing), p)| == |KeysWhere(m, p)|
  {
    FilterRowsCount(m, listing, p);
    assert (set k | k in listing && p(m[k])) == KeysWhere(m, p);
  }

  /** Every row of the listing is a stored row. */
  lemma RowsAreStored<T>(m: map<Id, T>, listing: seq<Id>)
    requires forall k :: k in listing ==> k in m
    ensures forall x :: x in Rows(m, listing) ==> x in m.Values
  {
    var rows := Rows(m, listing);
    forall x | x in rows
      ensures x in m.Values
    {
      var i :| 0 <= i < |rows| && rows[i] == x;
      assert m[listing[i]] == x;
    }
  }

  /** Number of order_items rows that belong to the order (`...filter(order_id == id).count()`). */
  function ItemCount(items: map<Id, OrderItem>, orderId: Id): nat {
    |set k | k in items && items[k].orderId == orderId|
  }

  /** Every row is stored under its own primary key, and every order item
      belongs to an existing order (the foreign key, with deletes assumed to cascade). */
  ghost predicate Consistent(categories: map<Id, Category>, dishes: map<Id, Dish>,
                             orders: map<Id, Order>, items: map<Id, OrderItem>)
  {
    && (forall k :: k in categories ==> categories[k].id == k)
    && (forall k :: k in dishes ==> dishes[k].id == k)
    && (forall k :: k in orders ==> orders[k].id == k)
    && (forall k :: k in items ==> items[k].id == k && items[k].orderId in orders)
  }

  /** Storing an order under its own id keeps the store consistent. */
  lemma PutOrderConsistent(categories: map<Id, Category>, dishes: map<Id, Dish>,
                           orders: map<Id, Order>, items: map<Id, OrderItem>, o: Order)
    requires Consistent(categories, dishes, orders, items)
    ensures Consistent(categories, dishes, orders[o.id := o], items)
  {
  }

  /** Adding rows stored under their own ids, each belonging to an existing order, keeps the store consistent. */
  lemma AddItemsConsistent(categories: map<Id, Category>, dishes: map<Id, Dish>,
                           orders: map<Id, Order>, items: map<Id, OrderItem>, added: map<Id, OrderItem>)
    requires Consistent(categories, dishes, orders, items)
    requires forall k :: k in added ==> added[k].id == k && added[k].orderId in orders
    ensures Consistent(categories, dishes, orders, items + added)
  {
  }

  class Database {
    var categories: map<Id, Category>
    var dishes: map<Id, Dish>
    var orders: map<Id, Order>
    var items: map<Id, OrderItem>

    ghost predicate Valid()
      reads this
    {
      Consistent(categories, dishes, orders, items)
    }

    constructor ()
      ensures Valid()
      ensures categories == map[] && dishes == map[] && orders == map[] && items == map[]
    {
      categories, dishes, orders, items := map[], map[], map[], map[];
    }
  }
}
