/** controllers/foodController.go: the paged food list, creating a food and
    updating one. The Food record carries no validation tags, so the
    validation steps of both handlers accept every food and are not modelled. */
module Foods {
  import opened Common
  import opened Models
  import opened Database
  import opened Helpers

  /** Every food is filed under a menu that exists. */
  ghost predicate MenusExist(foods: map<nat, Food>, menus: map<nat, Menu>) {
    forall k :: k in foods ==> foods[k].menuId in menus
  }

  /** GetFoods: page `page` of 20 foods. One row more than the page is read, and
      when it arrives it is dropped and reported as the existence of a next
      page. */
  method GetFoods(db: Db, pageParam: string) returns (foodItems: seq<Food>, nextPage: bool)
    ensures var offset := GetLimitOffset(DefaultLimit, QueryPositive(pageParam, 1)).0;
            && foodItems == Window(RowsById(db.foods), offset, DefaultLimit)
            && (nextPage <==> |db.foods| > offset + DefaultLimit)
    ensures |foodItems| <= DefaultLimit
    ensures forall f :: f in foodItems ==> f in db.foods.Values
  {
    var page := QueryPositive(pageParam, 1);
    var (offset, limit) := GetLimitOffset(DefaultLimit, page);
    foodItems, nextPage := FetchPage(RowsById(db.foods), offset, limit);
  }

  /** `OFFSET offset LIMIT limit + 1`, then the extra row, if it came, is
      dropped and reported as a next page. */
  method FetchPage<T>(rows: seq<T>, offset: nat, limit: nat) returns (items: seq<T>, nextPage: bool)
    ensures items == Window(rows, offset, limit)
    ensures nextPage <==> |rows| > offset + limit
  {
    OverFetch(rows, offset, limit);
    items := Window(rows, offset, limit + 1);
    nextPage := false;
    if |items| > limit {
      nextPage := true;
      items := items[0..|items| - 1];
    }
  }

  /** Every food is listed on exactly one page: food p is item p % 20 of page
      p / 20 + 1. */
  lemma {:induction false} FoodOnItsPage(rows: seq<Food>, p: nat)
    requires p < |rows|
    ensures var w := Window(rows, GetLimitOffset(DefaultLimit, p / DefaultLimit + 1).0, DefaultLimit);
            p % DefaultLimit < |w| && w[p % DefaultLimit] == rows[p]
  {
    WholePages(p / DefaultLimit, DefaultLimit);
    var start := GetLimitOffset(DefaultLimit, p / DefaultLimit + 1).0;
    assert start == p / DefaultLimit * DefaultLimit;
  }

  /** CreateFood: the admin gate, then the menu named by the food must exist;
      the stored food has its price rounded to cents and both timestamps set. */
  method CreateFood(db: Db, isAdmin: Option<bool>, payload: Food, now: int, toFixed2: real -> real)
    returns (out: Outcome)
    requires db.Valid()
    modifies db`foods, db`nextId
    ensures db.Valid()
    ensures out != Ok ==> db.foods == old(db.foods) && db.nextId == old(db.nextId)
    ensures AdminRejects(isAdmin) ==> out == BadRequest
    ensures !AdminRejects(isAdmin) && payload.menuId !in db.menus ==> out == ServerError
    ensures !AdminRejects(isAdmin) && payload.menuId in db.menus ==>
              && out == Ok
              && db.foods == old(db.foods)[old(db.nextId) := NewFood(payload, old(db.nextId), now, toFixed2)]
    ensures MenusExist(old(db.foods), db.menus) ==> MenusExist(db.foods, db.menus)
  {
    if AdminRejects(isAdmin) {
      return BadRequest;
    }
    if payload.menuId !in db.menus {
      return ServerError;
    }
    var food := payload;
    food := food.(createdAt := now);
    food := food.(updatedAt := now);
    var num := toFixed2(food.price);
    food := food.(price := num);
    var id := db.FreshId();
    food := food.(id := id);
    db.foods := db.foods[id := food];
    out := Ok;
  }

  /** The row CreateFood stores. */
  function NewFood(payload: Food, id: nat, now: int, toFixed2: real -> real): Food {
    payload.(id := id, createdAt := now, updatedAt := now, price := toFixed2(payload.price))
  }

  /** The result of a `First` query on the menus table. */
  datatype Lookup<T> = Found(row: T) | RecordNotFound | QueryFailed

  /** The columns of the menus table. */
  const MenuColumns: set<string> := {"id", "name", "category", "start_date", "end_date", "created_at", "updated_at"}

  /** `WHERE <column> = key` on the menus table: a column the table lacks makes
      the database reject the query; on the key column a missing row is
      ErrRecordNotFound. */
  function MenuWhere(menus: map<nat, Menu>, column: string, key: nat): (r: Lookup<Menu>)
    requires column == "id" || column !in MenuColumns
    ensures column !in MenuColumns ==> r == QueryFailed
    ensures column == "id" && key in menus ==> r == Found(menus[key])
    ensures column == "id" && key !in menus ==> r == RecordNotFound
  {
    if column !in MenuColumns then QueryFailed
    else if key in menus then Found(menus[key])
    else RecordNotFound
  }

  /** What UpdateFood answers for a failed menu lookup. */
  function LookupFailure<T>(l: Lookup<T>): (out: Outcome)
    requires !l.Found?
    ensures l.RecordNotFound? <==> out == NotFound
    ensures l.QueryFailed? <==> out == ServerError
  {
    if l.RecordNotFound? then NotFound else ServerError
  }

  /** The menu lookup of UpdateFood as written: it filters on `menu_id`. */
  function FoodMenuLookupAsWritten(menus: map<nat, Menu>, menuId: nat): (r: Lookup<Menu>)
    ensures r == QueryFailed
  {
    MenuWhere(menus, "menu_id", menuId)
  }

  /** The menu lookup UpdateFood needs: by the menu's primary key. */
  function FoodMenuLookup(menus: map<nat, Menu>, menuId: nat): (r: Lookup<Menu>)
    ensures menuId in menus ==> r == Found(menus[menuId])
    ensures menuId !in menus <==> r == RecordNotFound
  {
    MenuWhere(menus, "id", menuId)
  }

  /** The menus table has no `menu_id` column, so as written every update that
      names a menu fails with a server error, even for a menu that exists;
      looked up by `id`, the existing menu is found. */
  lemma MenuLookupByMissingColumn(menus: map<nat, Menu>, menuId: nat)
    requires menuId in menus
    ensures LookupFailure(FoodMenuLookupAsWritten(menus, menuId)) == ServerError
    ensures FoodMenuLookup(menus, menuId) == Found(menus[menuId])
  {
  }

  /** The stored food with the non-empty fields of the request laid over it; the
      menu changes only to a non-zero id (which UpdateFood has checked). */
  function MergeFood(existing: Food, incoming: Food, now: int): (r: Food)
    ensures r.name == if incoming.name != "" then incoming.name else existing.name
    ensures r.price == if incoming.price != 0.0 then incoming.price else existing.price
    ensures r.image == if incoming.image != "" then incoming.image else existing.image
    ensures r.menuId == if incoming.menuId != 0 then incoming.menuId else existing.menuId
    ensures r.id == existing.id && r.foodId == existing.foodId && r.createdAt == existing.createdAt
    ensures r.updatedAt == now
  {
    existing.(
      name := Pick(incoming.name, "", existing.name),
      price := Pick(incoming.price, 0.0, existing.price),
      image := Pick(incoming.image, "", existing.image),
      menuId := Pick(incoming.menuId, 0, existing.menuId),
      updatedAt := now)
  }

  /** Sending the same update twice stores what sending it once stores. */
  lemma MergeFoodIdempotent(existing: Food, incoming: Food, now: int, later: int)
    ensures MergeFood(MergeFood(existing, incoming, now), incoming, later) == MergeFood(existing, incoming, later)
  {
    PickIdempotent(incoming.name, "", existing.name);
    PickIdempotent(incoming.price, 0.0, existing.price);
    PickIdempotent(incoming.image, "", existing.image);
    PickIdempotent(incoming.menuId, 0, existing.menuId);
  }

  /** UpdateFood as written: the menu is looked up by `menu_id`, so a request
      that names a menu is a server error with nothing saved, whether or not
      the menu exists; only a request that leaves the menu alone is applied. */
  method UpdateFoodAsWritten(db: Db, foodId: nat, incoming: Food, now: int) returns (out: Outcome)
    requires db.Valid()
    modifies db`foods
    ensures db.Valid()
    ensures foodId !in old(db.foods) ==> out == NotFound && db.foods == old(db.foods)
    ensures foodId in old(db.foods) && incoming.menuId != 0 ==> out == ServerError && db.foods == old(db.foods)
    ensures foodId in old(db.foods) && incoming.menuId == 0 ==>
              out == Ok && db.foods == old(db.foods)[foodId := MergeFood(old(db.foods)[foodId], incoming, now)]
  {
    out := UpdateFoodWith(db, foodId, incoming, now, FoodMenuLookupAsWritten);
  }

  /** UpdateFood with the menu looked up by its primary key: a missing food or
      a missing menu is not found and nothing is saved; otherwise the merged
      food replaces the stored one. */
  method UpdateFood(db: Db, foodId: nat, incoming: Food, now: int) returns (out: Outcome)
    requires db.Valid()
    modifies db`foods
    ensures db.Valid()
    ensures out != Ok ==> db.foods == old(db.foods)
    ensures foodId !in old(db.foods) ==> out == NotFound
    ensures foodId in old(db.foods) && incoming.menuId != 0 && incoming.menuId !in db.menus ==> out == NotFound
    ensures foodId in old(db.foods) && (incoming.menuId == 0 || incoming.menuId in db.menus) ==>
              out == Ok && db.foods == old(db.foods)[foodId := MergeFood(old(db.foods)[foodId], incoming, now)]
    ensures MenusExist(old(db.foods), db.menus) ==> MenusExist(db.foods, db.menus)
  {
    out := UpdateFoodWith(db, foodId, incoming, now, FoodMenuLookup);
  }

  /** The steps of UpdateFood, with the menu lookup it uses as a parameter: a
      missing food is not found; a non-zero menu id that the lookup does not
      find is answered as LookupFailure says; in neither case is anything
      saved. Otherwise the merged food replaces the stored one. */
  method UpdateFoodWith(db: Db, foodId: nat, incoming: Food, now: int,
                        lookup: (map<nat, Menu>, nat) -> Lookup<Menu>) returns (out: Outcome)
    requires db.Valid()
    modifies db`foods
    ensures db.Valid()
    ensures out != Ok ==> db.foods == old(db.foods)
    ensures foodId !in old(db.foods) ==> out == NotFound
    ensures foodId in old(db.foods) && incoming.menuId != 0 && !lookup(db.menus, incoming.menuId).Found? ==>
              out == LookupFailure(lookup(db.menus, incoming.menuId))
    ensures foodId in old(db.foods) && (incoming.menuId == 0 || lookup(db.menus, incoming.menuId).Found?) ==>
              out == Ok && db.foods == old(db.foods)[foodId := MergeFood(old(db.foods)[foodId], incoming, now)]
  {
    if foodId !in db.foods {
      return NotFound;
    }
    var existing := db.foods[foodId];
    if incoming.name != "" {
      existing := existing.(name := incoming.name);
    }
    if incoming.price != 0.0 {
      existing := existing.(price := incoming.price);
    }
    if incoming.image != "" {
      existing := existing.(image := incoming.image);
    }
    if incoming.menuId != 0 {
      var menu := lookup(db.menus, incoming.menuId);
      if !menu.Found? {
        return LookupFailure(menu);
      }
      existing := existing.(menuId := incoming.menuId);
    }
    existing := existing.(updatedAt := now);
    db.foods := db.foods[foodId := existing];
    out := Ok;
  }
}
