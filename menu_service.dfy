/** The menu service of the service-layer variant
    (backend/src/services/menu_service.py): create, partial update and delete of
    categories and dishes with no reference checks, the paged category and dish
    listings, and the full menu of available dishes. */
module MenuService {
  import opened Seqs
  import opened Store
  import ApiAdmin

  // -------------------------------------------------------------- categories

  /** `get_categories`: rows [skip, skip + limit) of the categories table. */
  function GetCategories(categories: map<Id, Category>, listing: seq<Id>, skip: nat, limit: nat): (r: seq<Category>)
    requires Lists(categories, listing)
    ensures |r| == Max(0, Min(|categories|, skip + limit) - skip)
    ensures forall i :: 0 <= i < |r| ==> skip + i < |listing| && r[i] == categories[listing[skip + i]]
    ensures forall i :: 0 <= i < |r| ==> r[i] in categories.Values
  {
    ListingSize(categories, listing);
    RowsAreStored(categories, listing);
    Window(Rows(categories, listing), skip, limit)
  }

  /** Consecutive pages of categories join into one page. */
  lemma CategoryPagesJoin(categories: map<Id, Category>, listing: seq<Id>, skip: nat, a: nat, b: nat)
    requires Lists(categories, listing)
    ensures GetCategories(categories, listing, skip, a) + GetCategories(categories, listing, skip + a, b)
         == GetCategories(categories, listing, skip, a + b)
  {
    WindowSplit(Rows(categories, listing), skip, a, b);
  }

  /** `create_category`: a row under the fresh id holding exactly the supplied name. */
  method CreateCategory(db: Database, categoryId: Id, name: string) returns (created: Category)
    requires db.Valid() && categoryId !in db.categories
    modifies db
    ensures db.Valid()
    ensures created == Category(categoryId, name)
    ensures db.categories == old(db.categories)[categoryId := created]
    ensures db.dishes == old(db.dishes) && db.orders == old(db.orders) && db.items == old(db.items)
  {
    created := Category(categoryId, name);
    db.categories := db.categories[categoryId := created];
  }

  /** The category update with `exclude_unset`: None when the request leaves the name unset. */
  datatype CategoryUpdate = CategoryUpdate(name: Option<string>)

  /** `update_category`: None and no change for an unknown id; otherwise the name,
      when the request sets it, replaces the old one. */
  method UpdateCategory(db: Database, categoryId: Id, u: CategoryUpdate) returns (r: Option<Category>)
    requires db.Valid()
    modifies db
    ensures db.Valid()
    ensures db.dishes == old(db.dishes) && db.orders == old(db.orders) && db.items == old(db.items)
    ensures categoryId !in old(db.categories) ==> r.None? && db.categories == old(db.categories)
    ensures categoryId in old(db.categories) ==>
      && r.Some? && r.value.id == categoryId
      && r.value.name == (if u.name.Some? then u.name.value else old(db.categories)[categoryId].name)
      && db.categories == old(db.categories)[categoryId := r.value]
  {
    if categoryId !in db.categories {
      return None;
    }
    var category := db.categories[categoryId];
    if u.name.Some? {
      category := category.(name := u.name.value);
    }
    db.categories := db.categories[categoryId := category];
    r := Some(category);
  }

  /** `delete_category`: None for an unknown id; otherwise the category is removed and
      returned, whether or not dishes still refer to it. Those dishes are assumed to be
      left as they are. */
  method DeleteCategory(db: Database, categoryId: Id) returns (r: Option<Category>)
    requires db.Valid()
    modifies db
    ensures db.Valid()
    ensures db.dishes == old(db.dishes) && db.orders == old(db.orders) && db.items == old(db.items)
    ensures categoryId !in old(db.categories) ==> r.None? && db.categories == old(db.categories)
    ensures categoryId in old(db.categories) ==>
      r == Some(old(db.categories)[categoryId]) && db.categories == old(db.categories) - {categoryId}
  {
    if categoryId !in db.categories {
      return None;
    }
    r := Some(db.categories[categoryId]);
    db.categories := db.categories - {categoryId};
  }

  // ------------------------------------------------------------------ dishes

  /** `if category_id:` filters only on a given, non-empty category; `if available_only:`
      keeps the available dishes. */
  function Shown(categoryId: Option<Id>, availableOnly: bool): Dish -> bool {
    (d: Dish) =>
      && (categoryId.None? || categoryId.value == "" || d.categoryId == categoryId.value)
      && (!availableOnly || d.available)
  }

  /** `get_dishes`: the dishes passing the filters, then rows [skip, skip + limit). */
  function GetDishes(dishes: map<Id, Dish>, listing: seq<Id>, skip: nat, limit: nat,
                     categoryId: Option<Id>, availableOnly: bool): (r: seq<Dish>)
    requires Lists(dishes, listing)
    ensures |r| <= limit
    ensures var shown := Filter(Rows(dishes, listing), Shown(categoryId, availableOnly));
      |r| == Max(0, Min(|shown|, skip + limit) - skip) && forall i :: 0 <= i < |r| ==> r[i] == shown[skip + i]
    ensures forall i :: 0 <= i < |r| ==> r[i] in dishes.Values
    ensures forall i :: 0 <= i < |r| ==> Shown(categoryId, availableOnly)(r[i])
  {
    var shown := Filter(Rows(dishes, listing), Shown(categoryId, availableOnly));
    ShownAreStored(dishes, listing, Shown(categoryId, availableOnly), shown);
    Window(shown, skip, limit)
  }

  lemma ShownAreStored(dishes: map<Id, Dish>, listing: seq<Id>, p: Dish -> bool, shown: seq<Dish>)
    requires Lists(dishes, listing) && shown == Filter(Rows(dishes, listing), p)
    ensures forall i :: 0 <= i < |shown| ==> shown[i] in dishes.Values
  {
    RowsAreStored(dishes, listing);
  }

  /** A first page at least as long as the number of matching dishes holds every stored dish that matches. */
  lemma FirstPageHasAllDishes(dishes: map<Id, Dish>, listing: seq<Id>, limit: nat,
                              categoryId: Option<Id>, availableOnly: bool)
    requires Lists(dishes, listing)
    requires limit >= |KeysWhere(dishes, Shown(categoryId, availableOnly))|
    ensures forall k :: k in dishes && Shown(categoryId, availableOnly)(dishes[k]) ==>
      dishes[k] in GetDishes(dishes, listing, 0, limit, categoryId, availableOnly)
  {
    var shown := Filter(Rows(dishes, listing), Shown(categoryId, availableOnly));
    ListedCount(dishes, listing, Shown(categoryId, availableOnly));
    assert Window(shown, 0, limit) == shown;
    forall k | k in dishes && Shown(categoryId, availableOnly)(dishes[k])
      ensures dishes[k] in shown
    {
      var q := StoredRowListed(dishes, listing, Shown(categoryId, availableOnly), dishes[k]);
    }
  }

  /** `create_dish`: a row under the fresh id holding exactly the supplied fields; the
      category is not checked. */
  method CreateDish(db: Database, dishId: Id, name: string, price: Money, categoryId: Id, available: bool)
    returns (created: Dish)
    requires db.Valid() && dishId !in db.dishes
    modifies db
    ensures db.Valid()
    ensures created == Dish(dishId, categoryId, name, price, available)
    ensures db.dishes == old(db.dishes)[dishId := created]
    ensures db.categories == old(db.categories) && db.orders == old(db.orders) && db.items == old(db.items)
  {
    created := Dish(dishId, categoryId, name, price, available);
    db.dishes := db.dishes[dishId := created];
  }

  /** The dish update with `exclude_unset`: None for each field the request leaves unset. */
  datatype DishUpdate = DishUpdate(name: Option<string>, price: Option<Money>, categoryId: Option<Id>,
                                   available: Option<bool>)

  /** The dish after `setattr` of every field the update sets, whatever its value. */
  function Applied(d: Dish, u: DishUpdate): (r: Dish)
    ensures r.id == d.id
  {
    d.(name := if u.name.Some? then u.name.value else d.name,
       price := if u.price.Some? then u.price.value else d.price,
       categoryId := if u.categoryId.Some? then u.categoryId.value else d.categoryId,
       available := if u.available.Some? then u.available.value else d.available)
  }

  /** Setting a field always writes it, even to 0 or the empty name, where the api
      variant's truthiness test keeps the old value. */
  lemma SetFieldsAlwaysApply(d: Dish)
    requires d.price != 0 && d.name != ""
    ensures Applied(d, DishUpdate(Some(""), Some(0), None, None)).price == 0
    ensures Applied(d, DishUpdate(Some(""), Some(0), None, None)).name == ""
    ensures ApiAdmin.Patched(d, ApiAdmin.DishUpdate(Some(""), Some(0), None)) == d
  {
  }

  /** Applying the same update twice is applying it once, and an update that sets nothing changes nothing. */
  lemma AppliedIdempotent(d: Dish, u: DishUpdate)
    ensures Applied(Applied(d, u), u) == Applied(d, u)
    ensures Applied(d, DishUpdate(None, None, None, None)) == d
  {
  }

  /** `update_dish`: None and no change for an unknown id; otherwise each field the
      request sets is written in turn and the updated dish is returned. */
  method UpdateDish(db: Database, dishId: Id, u: DishUpdate) returns (r: Option<Dish>)
    requires db.Valid()
    modifies db
    ensures db.Valid()
    ensures db.categories == old(db.categories) && db.orders == old(db.orders) && db.items == old(db.items)
    ensures dishId !in old(db.dishes) ==> r.None? && db.dishes == old(db.dishes)
    ensures dishId in old(db.dishes) ==>
      && r == Some(Applied(old(db.dishes)[dishId], u))
      && db.dishes == old(db.dishes)[dishId := r.value]
  {
    if dishId !in db.dishes {
      return None;
    }
    var dish := db.dishes[dishId];
    if u.name.Some? {
      dish := dish.(name := u.name.value);
    }
    if u.price.Some? {
      dish := dish.(price := u.price.value);
    }
    if u.categoryId.Some? {
      dish := dish.(categoryId := u.categoryId.value);
    }
    if u.available.Some? {
      dish := dish.(available := u.available.value);
    }
    db.dishes := db.dishes[dishId := dish];
    r := Some(dish);
  }

  /** `delete_dish`: None for an unknown id; otherwise the dish is removed and returned,
      whether or not order lines still refer to it. */
  method DeleteDish(db: Database, dishId: Id) returns (r: Option<Dish>)
    requires db.Valid()
    modifies db
    ensures db.Valid()
    ensures db.categories == old(db.categories) && db.orders == old(db.orders) && db.items == old(db.items)
    ensures dishId !in old(db.dishes) ==> r.None? && db.dishes == old(db.dishes)
    ensures dishId in old(db.dishes) ==>
      r == Some(old(db.dishes)[dishId]) && db.dishes == old(db.dishes) - {dishId}
  {
    if dishId !in db.dishes {
      return None;
    }
    r := Some(db.dishes[dishId]);
    db.dishes := db.dishes - {dishId};
  }

  // --------------------------------------------------------------- full menu

  /** A dish of the full menu with its category (`dish.category`), None when that category is gone. */
  datatype MenuDish = MenuDish(dish: Dish, category: Option<Category>)

  datatype FullMenu = FullMenu(categories: seq<Category>, dishes: seq<MenuDish>)

  function IsAvailable(d: Dish): bool { d.available }

  function CategoryOf(d: Dish, categories: map<Id, Category>): Option<Category> {
    if d.categoryId in categories then Some(categories[d.categoryId]) else None
  }

  /** `get_full_menu`: every category, and every available dish with its category. */
  method GetFullMenu(db: Database, categoryListing: seq<Id>, dishListing: seq<Id>) returns (menu: FullMenu)
    requires Lists(db.categories, categoryListing) && Lists(db.dishes, dishListing)
    ensures menu.categories == Rows(db.categories, categoryListing)
    ensures |menu.categories| == |db.categories|
    ensures var available := Filter(Rows(db.dishes, dishListing), IsAvailable);
      && |menu.dishes| == |available|
      && forall i :: 0 <= i < |available| ==> menu.dishes[i] == MenuDish(available[i], CategoryOf(available[i], db.categories))
  {
    var categories := Rows(db.categories, categoryListing);
    ListingSize(db.categories, categoryListing);
    var dishes := Filter(Rows(db.dishes, dishListing), IsAvailable);
    var withCategories := WithCategories(dishes, db.categories);
    menu := FullMenu(categories, withCategories);
  }

  /** The loop of lines 105-109: each dish paired with its category, in order. */
  method WithCategories(dishes: seq<Dish>, categories: map<Id, Category>) returns (r: seq<MenuDish>)
    ensures |r| == |dishes|
    ensures forall i :: 0 <= i < |dishes| ==> r[i] == MenuDish(dishes[i], CategoryOf(dishes[i], categories))
  {
    r := [];
    for i := 0 to |dishes|
      invariant |r| == i
      invariant forall j :: 0 <= j < i ==> r[j] == MenuDish(dishes[j], CategoryOf(dishes[j], categories))
    {
      var dish := dishes[i];
      var category := if dish.categoryId in categories then Some(categories[dish.categoryId]) else None;
      r := r + [MenuDish(dish, category)];
    }
  }

  /** The full menu shows a stored dish exactly when it is available. */
  lemma FullMenuShowsAvailable(dishes: map<Id, Dish>, listing: seq<Id>, d: Dish)
    requires Lists(dishes, listing) && d in dishes.Values
    ensures d in Filter(Rows(dishes, listing), IsAvailable) <==> d.available
  {
    var k :| k in dishes && dishes[k] == d;
    var i :| 0 <= i < |listing| && listing[i] == k;
    assert Rows(dishes, listing)[i] == d;
  }
}
