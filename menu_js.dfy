/** The menu state of the single-page client (frontend/js/menu.js): the categories
    and dishes last loaded, the available dishes grouped by category, and the
    category currently shown. */
module MenuJs {
  import opened Seqs
  import opened Store

  /** The bucket of every available dish, and the category shown at first. */
  const AllKey: string := "all"

  /** The caption of a category id that names no loaded category. */
  const NoCategoryName: string := "Без категории"

  /** The body of the menu response; a missing list reads as empty (`data.dishes || []`). */
  datatype MenuData = MenuData(categories: Option<seq<Category>>, dishes: Option<seq<Dish>>)

  function OrEmpty<T>(list: Option<seq<T>>): (r: seq<T>)
    ensures list.None? ==> r == []
    ensures list.Some? ==> r == list.value
  {
    if list.Some? then list.value else []
  }

  function IsAvailable(d: Dish): bool { d.available }

  /** The filter of a category's bucket: the available dishes of that category. */
  function AvailableIn(categoryId: Id): Dish -> bool {
    (d: Dish) => d.categoryId == categoryId && d.available
  }

  function CategoryId(c: Category): Id { c.id }

  function HasCategoryId(categoryId: Id): Category -> bool {
    (c: Category) => c.id == categoryId
  }

  function HasDishId(dishId: Id): Dish -> bool {
    (d: Dish) => d.id == dishId
  }

  /** The buckets the grouping of lines 19-26 builds from the given categories: the
      `'all'` bucket first, then one bucket per category, a later assignment to the
      same key replacing an earlier one. */
  function Buckets(categories: seq<Category>, dishes: seq<Dish>): map<string, seq<Dish>>
    decreases |categories|
  {
    if categories == [] then map[AllKey := Filter(dishes, IsAvailable)]
    else
      var n := |categories| - 1;
      Buckets(categories[..n], dishes)[categories[n].id := Filter(dishes, AvailableIn(categories[n].id))]
  }

  /** The keys are `'all'` and the category ids. */
  lemma {:induction false} BucketKeys(categories: seq<Category>, dishes: seq<Dish>)
    ensures forall k :: k in Buckets(categories, dishes) <==>
      k == AllKey || exists i :: 0 <= i < |categories| && categories[i].id == k
    decreases |categories|
  {
    if categories != [] {
      var n := |categories| - 1;
      var front := categories[..n];
      BucketKeys(front, dishes);
      assert forall i :: 0 <= i < n ==> front[i] == categories[i];
    }
  }

  /** A category's bucket holds the available dishes of that category. */
  lemma {:induction false} BucketOfCategory(categories: seq<Category>, dishes: seq<Dish>, i: nat)
    requires i < |categories|
    ensures categories[i].id in Buckets(categories, dishes)
    ensures Buckets(categories, dishes)[categories[i].id] == Filter(dishes, AvailableIn(categories[i].id))
    decreases |categories|
  {
    var n := |categories| - 1;
    if i < n {
      BucketOfCategory(categories[..n], dishes, i);
    }
  }

  /** Unless a category takes its key, the `'all'` bucket holds every available dish. */
  lemma {:induction false} BucketOfAll(categories: seq<Category>, dishes: seq<Dish>)
    requires forall i :: 0 <= i < |categories| ==> categories[i].id != AllKey
    ensures AllKey in Buckets(categories, dishes)
    ensures Buckets(categories, dishes)[AllKey] == Filter(dishes, IsAvailable)
    decreases |categories|
  {
    if categories != [] {
      var n := |categories| - 1;
      assert categories[n].id != AllKey;
      BucketOfAll(categories[..n], dishes);
    }
  }

  /** A category's bucket holds exactly the available dishes of that category, in
      menu order, and is a sub-sequence of the `'all'` bucket. */
  lemma BucketIsAvailableDishesOfCategory(categories: seq<Category>, dishes: seq<Dish>, i: nat)
    requires i < |categories|
    requires forall j :: 0 <= j < |categories| ==> categories[j].id != AllKey
    ensures categories[i].id in Buckets(categories, dishes) && AllKey in Buckets(categories, dishes)
    ensures var bucket := Buckets(categories, dishes)[categories[i].id];
      forall d :: d in bucket <==> d in dishes && d.available && d.categoryId == categories[i].id
    ensures SubsequenceOf(Buckets(categories, dishes)[categories[i].id], Buckets(categories, dishes)[AllKey])
  {
    BucketOfCategory(categories, dishes, i);
    BucketOfAll(categories, dishes);
    var id := categories[i].id;
    var all := Filter(dishes, IsAvailable);
    FilterFilter(dishes, IsAvailable, AvailableIn(id), AvailableIn(id));
    FilterIsSubsequence(all, AvailableIn(id));
  }

  /** A key that is neither `'all'` nor a loaded category id has no bucket. */
  lemma NoBucketForOtherKeys(categories: seq<Category>, dishes: seq<Dish>, key: string)
    requires key != AllKey && forall j :: 0 <= j < |categories| ==> categories[j].id != key
    ensures key !in Buckets(categories, dishes)
  {
    BucketKeys(categories, dishes);
  }

  /** The menu state of the page. */
  class MenuManager {
    var categories: seq<Category>
    var dishes: seq<Dish>
    var dishesByCategory: map<string, seq<Dish>>
    var currentCategory: string

    /** `constructor` (lines 5-10). */
    constructor()
      ensures categories == [] && dishes == [] && dishesByCategory == map[] && currentCategory == AllKey
    {
      categories := [];
      dishes := [];
      dishesByCategory := map[];
      currentCategory := AllKey;
    }

    /** `loadMenu` (lines 12-33); `response` is the menu the request returned, None
        when it failed, in which case the error is rethrown and nothing changes. */
    method LoadMenu(response: Option<MenuData>) returns (loaded: bool)
      modifies this
      ensures response.None? ==>
        && !loaded && categories == old(categories) && dishes == old(dishes)
        && dishesByCategory == old(dishesByCategory)
      ensures response.Some? ==>
        && loaded
        && categories == OrEmpty(response.value.categories)
        && dishes == OrEmpty(response.value.dishes)
        && dishesByCategory == Buckets(categories, dishes)
      ensures currentCategory == old(currentCategory)
    {
      if response.None? {
        return false;
      }
      categories := OrEmpty(response.value.categories);
      dishes := OrEmpty(response.value.dishes);
      var buckets := map[AllKey := Filter(dishes, IsAvailable)];
      for i := 0 to |categories|
        invariant buckets == Buckets(categories[..i], dishes)
      {
        var c := categories[i];
        assert categories[..i + 1][..i] == categories[..i];
        buckets := buckets[c.id := Filter(dishes, AvailableIn(c.id))];
      }
      assert categories[..|categories|] == categories;
      dishesByCategory := buckets;
      return true;
    }

    /** `getCategoryName` (lines 35-38): the name of the first category with the id. */
    function GetCategoryName(categoryId: Id): (r: string)
      reads this
      ensures (forall i :: 0 <= i < |categories| ==> categories[i].id != categoryId) ==> r == NoCategoryName
      ensures forall i :: (0 <= i < |categories| && categories[i].id == categoryId &&
                           forall j :: 0 <= j < i ==> categories[j].id != categoryId) ==> r == categories[i].name
    {
      match Find(categories, HasCategoryId(categoryId))
      case Some(i) => categories[i].name
      case None => NoCategoryName
    }

    /** `getDish` (lines 40-42): the first dish with the id, None for `undefined`. */
    function GetDish(dishId: Id): (r: Option<Dish>)
      reads this
      ensures r.None? <==> forall i :: 0 <= i < |dishes| ==> dishes[i].id != dishId
      ensures r.Some? ==> r.value.id == dishId && exists i ::
        && 0 <= i < |dishes| && dishes[i] == r.value
        && forall j :: 0 <= j < i ==> dishes[j].id != dishId
    {
      match Find(dishes, HasDishId(dishId))
      case Some(i) =>
        assert HasDishId(dishId)(dishes[i]);
        Some(dishes[i])
      case None =>
        assert forall i :: 0 <= i < |dishes| ==> !HasDishId(dishId)(dishes[i]);
        None
    }

    /** `getDishesByCategory` (lines 44-46): the bucket, or an empty list for a key without one. */
    function GetDishesByCategory(categoryId: string): (r: seq<Dish>)
      reads this
      ensures categoryId !in dishesByCategory ==> r == []
      ensures categoryId in dishesByCategory ==> r == dishesByCategory[categoryId]
    {
      if categoryId in dishesByCategory then dishesByCategory[categoryId] else []
    }

    /** `changeCategory` (lines 95-99); the re-render it triggers is not part of this model. */
    method ChangeCategory(categoryId: string)
      modifies this
      ensures currentCategory == categoryId
      ensures categories == old(categories) && dishes == old(dishes) && dishesByCategory == old(dishesByCategory)
    {
      currentCategory := categoryId;
    }
  }
}
