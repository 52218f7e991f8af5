/**
 * The seeding script. On a store without ingredients it commits the seed ingredients, then
 * commits the seed recipes, then commits three users with the first user's pantry, a shopping
 * list and preferences, and each user's favorites. A recipe's ingredient links
 * are found by exact name in the ingredient table; an entry whose name is not there is skipped.
 * Favorites find their recipe by name in the same way.
 */
module InitDb {
  import opened Wrappers
  import opened RecordStore
  import opened UserRoutes

  datatype SeedIngredient = SeedIngredient(name: string, unit: string, category: string)

  /** A seed step carries its own number. */
  datatype SeedStep = SeedStep(number: int, description: string, imageUrl: string)

  /** A seed ingredient entry names its ingredient. */
  datatype SeedLink = SeedLink(name: string, amount: real, note: string)

  datatype SeedRecipe = SeedRecipe(
    name: string,
    description: string,
    cookingTime: int,
    difficulty: string,
    category: string,
    imageUrl: string,
    steps: seq<SeedStep>,
    links: seq<SeedLink>)

  /** A seed user; the password is not part of the model. */
  datatype SeedUser = SeedUser(username: string, email: string, googleId: Option<string>)

  /** A pantry entry, expiring `days` days after the seeding date. */
  datatype SeedStock = SeedStock(name: string, amount: real, days: int)

  datatype SeedItem = SeedItem(name: string, amount: real, purchased: bool)

  datatype SeedPreference = SeedPreference(kind: string, value: string)

  // ---------------------------------------------------------------- inserting and resolving

  /** The rows added one after another: the i-th receives the key `t.next + i`. */
  function InsertAll<T(==)>(t: Table<T>, rows: seq<T>): (r: Table<T>)
    requires Valid(t)
    ensures Valid(r) && Extends(t, r) && r.next == t.next + |rows|
    ensures forall id :: t.next <= id < r.next ==> id in r.rows && r.rows[id] == rows[id - t.next]
    ensures forall id :: id in r.rows ==> id in t.rows || t.next <= id < r.next
    decreases |rows|
  {
    if rows == [] then t
    else InsertAll(Table(t.rows[t.next := rows[0]], t.next + 1), rows[1..])
  }

  /** Row `i` of the inserted ones is stored under the key `t.next + i`. */
  lemma InsertedAt<T>(t: Table<T>, rows: seq<T>, i: int)
    requires Valid(t) && 0 <= i < |rows|
    ensures t.next + i in InsertAll(t, rows).rows && InsertAll(t, rows).rows[t.next + i] == rows[i]
  {
  }

  /** A key after the insert holds either the row stored before or one of the inserted rows. */
  lemma InsertedKey<T>(t: Table<T>, rows: seq<T>, id: int)
    requires Valid(t) && id in InsertAll(t, rows).rows
    ensures id in t.rows ==> InsertAll(t, rows).rows[id] == t.rows[id]
    ensures id !in t.rows ==> 0 <= id - t.next < |rows| && InsertAll(t, rows).rows[id] == rows[id - t.next]
  {
  }

  /** `row` is what `make` builds from the entry `x` and the id its name resolves to. */
  predicate MadeFrom<A, R(==)>(find: string -> Option<int>, name: A -> string, make: (A, int) -> R, x: A, row: R) {
    find(name(x)).Some? && row == make(x, find(name(x)).value)
  }

  /**
   * The loop shape shared by links, pantry entries and list items: look each entry's
   * name up, and make a row from the entry and the id found; an entry whose name is not found is skipped.
   */
  function ByName<A, R(==)>(find: string -> Option<int>, xs: seq<A>, name: A -> string, make: (A, int) -> R): (r: seq<R>)
    ensures |r| <= |xs|
    ensures forall j :: 0 <= j < |r| ==> exists i :: 0 <= i < |xs| && MadeFrom(find, name, make, xs[i], r[j])
    ensures (forall i :: 0 <= i < |xs| ==> find(name(xs[i])).Some?) ==>
      |r| == |xs| && forall i :: 0 <= i < |xs| ==> MadeFrom(find, name, make, xs[i], r[i])
    decreases |xs|
  {
    if xs == [] then []
    else
      var rest := ByName(find, xs[1..], name, make);
      var r := if find(name(xs[0])).Some? then [make(xs[0], find(name(xs[0])).value)] + rest else rest;
      ByNameStepSound(find, xs, name, make, rest, r);
      ByNameStepComplete(find, xs, name, make, rest, r);
      r
  }

  /** An entry whose name is found has its row among the rows made, whatever the other entries. */
  lemma {:induction false} ByNameFound<A, R>(find: string -> Option<int>, xs: seq<A>, name: A -> string, make: (A, int) -> R, i: int)
    requires 0 <= i < |xs| && find(name(xs[i])).Some?
    ensures make(xs[i], find(name(xs[i])).value) in ByName(find, xs, name, make)
    decreases |xs|
  {
    var rest := ByName(find, xs[1..], name, make);
    assert ByName(find, xs, name, make) ==
      if find(name(xs[0])).Some? then [make(xs[0], find(name(xs[0])).value)] + rest else rest;
    if i > 0 {
      assert xs[i] == xs[1..][i - 1];
      ByNameFound(find, xs[1..], name, make, i - 1);
    }
  }

  /** Every row of one step of `ByName` is made from some entry, given that every row of its tail is. */
  lemma ByNameStepSound<A, R>(find: string -> Option<int>, xs: seq<A>, name: A -> string, make: (A, int) -> R, rest: seq<R>, r: seq<R>)
    requires |xs| > 0
    requires forall j :: 0 <= j < |rest| ==> exists i :: 0 <= i < |xs[1..]| && MadeFrom(find, name, make, xs[1..][i], rest[j])
    requires r == if find(name(xs[0])).Some? then [make(xs[0], find(name(xs[0])).value)] + rest else rest
    ensures forall j :: 0 <= j < |r| ==> exists i :: 0 <= i < |xs| && MadeFrom(find, name, make, xs[i], r[j])
  {
    forall j | 0 <= j < |r| ensures exists i :: 0 <= i < |xs| && MadeFrom(find, name, make, xs[i], r[j]) {
      if find(name(xs[0])).Some? && j == 0 {
        assert MadeFrom(find, name, make, xs[0], r[j]);
      } else {
        var k := if find(name(xs[0])).Some? then j - 1 else j;
        assert r[j] == rest[k];
        var i :| 0 <= i < |xs[1..]| && MadeFrom(find, name, make, xs[1..][i], rest[k]);
        assert xs[1..][i] == xs[i + 1];
      }
    }
  }

  /** When every entry's name is found, one step of `ByName` makes the row of each entry in place. */
  lemma ByNameStepComplete<A, R>(find: string -> Option<int>, xs: seq<A>, name: A -> string, make: (A, int) -> R, rest: seq<R>, r: seq<R>)
    requires |xs| > 0
    requires (forall i :: 0 <= i < |xs[1..]| ==> find(name(xs[1..][i])).Some?) ==>
      |rest| == |xs[1..]| && forall i :: 0 <= i < |xs[1..]| ==> MadeFrom(find, name, make, xs[1..][i], rest[i])
    requires r == if find(name(xs[0])).Some? then [make(xs[0], find(name(xs[0])).value)] + rest else rest
    ensures (forall i :: 0 <= i < |xs| ==> find(name(xs[i])).Some?) ==>
      |r| == |xs| && forall i :: 0 <= i < |xs| ==> MadeFrom(find, name, make, xs[i], r[i])
  {
    if forall i :: 0 <= i < |xs| ==> find(name(xs[i])).Some? {
      forall i | 0 <= i < |xs[1..]| ensures find(name(xs[1..][i])).Some? {
        assert xs[1..][i] == xs[i + 1];
      }
      forall i | 1 <= i < |xs| ensures MadeFrom(find, name, make, xs[i], r[i]) {
        assert xs[i] == xs[1..][i - 1];
      }
    }
  }

  // ---------------------------------------------------------------- ingredients and recipes

  /** The seed list has an ingredient of this name. */
  predicate Listed(name: string, seeds: seq<SeedIngredient>) {
    exists i :: 0 <= i < |seeds| && seeds[i].name == name
  }

  function IngredientRows(seeds: seq<SeedIngredient>): (r: seq<IngredientRow>)
    ensures |r| == |seeds|
    ensures forall i :: 0 <= i < |seeds| ==>
      r[i].name == seeds[i].name && r[i].unit == Some(seeds[i].unit) && r[i].category == Some(seeds[i].category) && r[i].imageUrl.None?
  {
    seq(|seeds|, i requires 0 <= i < |seeds| => IngredientRow(seeds[i].name, Some(seeds[i].unit), Some(seeds[i].category), None))
  }

  /** On a table that held no ingredient, the seeded table finds exactly the seed names. */
  lemma SeededNameFound(t: Table<IngredientRow>, seeds: seq<SeedIngredient>, name: string)
    requires Valid(t) && t.rows == map[]
    ensures FindByName(InsertAll(t, IngredientRows(seeds)), name).Some? <==> Listed(name, seeds)
  {
    var rows := IngredientRows(seeds);
    var r := InsertAll(t, rows);
    if Listed(name, seeds) {
      var i :| 0 <= i < |seeds| && seeds[i].name == name;
      var id := t.next + i;
      assert r.rows[id] == rows[id - t.next];
      assert r.rows[id].name == name;
    }
    if FindByName(r, name).Some? {
      var id := FindByName(r, name).value;
      assert id !in t.rows;
      assert r.rows[id] == rows[id - t.next];
      assert seeds[id - t.next].name == name;
    }
  }

  /** The link row carries the entry's amount and note and points at a row with the entry's name. */
  predicate LinkedFrom(t: Table<IngredientRow>, row: LinkRow, l: SeedLink) {
    row.ingredientId in t.rows && t.rows[row.ingredientId].name == l.name && row.amount == l.amount && row.note == Some(l.note)
  }

  /** The link rows of a recipe: the entries whose ingredient name the table has, in order. */
  function SeedLinks(t: Table<IngredientRow>, links: seq<SeedLink>): (r: seq<LinkRow>)
    requires Valid(t)
    ensures |r| <= |links|
    ensures forall j :: 0 <= j < |r| ==> r[j].ingredientId in t.rows
    ensures forall j :: 0 <= j < |r| ==> exists i :: 0 <= i < |links| && LinkedFrom(t, r[j], links[i])
    ensures (forall i :: 0 <= i < |links| ==> FindByName(t, links[i].name).Some?) ==>
      |r| == |links| && forall i :: 0 <= i < |links| ==> r[i].ingredientId == FindByName(t, links[i].name).value
  {
    var find := (n: string) => FindByName(t, n);
    var r := ByName(find, links, (l: SeedLink) => l.name, (l: SeedLink, id: int) => LinkRow(id, l.amount, Some(l.note)));
    assert forall i :: 0 <= i < |links| ==> find(links[i].name) == FindByName(t, links[i].name);
    r
  }

  /** The step rows of a recipe: each seed step keeps the number it was given. */
  function SeedSteps(steps: seq<SeedStep>): (r: seq<StepRow>)
    ensures |r| == |steps|
    ensures forall i :: 0 <= i < |steps| ==>
      r[i].number == steps[i].number && r[i].description == steps[i].description && r[i].imageUrl == Some(steps[i].imageUrl)
  {
    seq(|steps|, i requires 0 <= i < |steps| => StepRow(steps[i].number, steps[i].description, Some(steps[i].imageUrl)))
  }

  /** The stored row of a seed recipe; the seed data gives no servings. */
  function SeedRecipeRow(t: Table<IngredientRow>, s: SeedRecipe): (r: RecipeRow)
    requires Valid(t)
    ensures r.name == s.name && r.description == Some(s.description) && r.cookingTime == Some(s.cookingTime)
    ensures r.difficulty == Some(s.difficulty) && r.category == Some(s.category) && r.imageUrl == Some(s.imageUrl)
    ensures r.servings.None? && r.steps == SeedSteps(s.steps) && r.links == SeedLinks(t, s.links)
  {
    RecipeRow(s.name, Some(s.description), Some(s.difficulty), Some(s.cookingTime), None, Some(s.category),
              Some(s.imageUrl), SeedSteps(s.steps), SeedLinks(t, s.links))
  }

  function RecipeRows(t: Table<IngredientRow>, seeds: seq<SeedRecipe>): (r: seq<RecipeRow>)
    requires Valid(t)
    ensures |r| == |seeds| && forall i :: 0 <= i < |seeds| ==> r[i] == SeedRecipeRow(t, seeds[i])
  {
    seq(|seeds|, i requires 0 <= i < |seeds| => SeedRecipeRow(t, seeds[i]))
  }

  function UserRows(seeds: seq<SeedUser>): (r: seq<UserRow>)
    ensures |r| == |seeds| && forall i :: 0 <= i < |seeds| ==> r[i] == UserRow(seeds[i].username, seeds[i].email, seeds[i].googleId)
  {
    seq(|seeds|, i requires 0 <= i < |seeds| => UserRow(seeds[i].username, seeds[i].email, seeds[i].googleId))
  }

  function PreferenceRows(userId: int, seeds: seq<SeedPreference>): (r: seq<PreferenceRow>)
    ensures |r| == |seeds| && forall i :: 0 <= i < |seeds| ==> r[i].userId == userId && r[i].kind == seeds[i].kind && r[i].value == seeds[i].value
  {
    seq(|seeds|, i requires 0 <= i < |seeds| => PreferenceRow(userId, seeds[i].kind, seeds[i].value))
  }

  /** Pantry entries of `userId` written one after another into the table keyed by (user, ingredient). */
  function Stock(p: map<(int, int), PantryRow>, userId: int, entries: seq<(int, PantryRow)>): (r: map<(int, int), PantryRow>)
    ensures forall k :: k in p ==> k in r
    ensures forall k :: k in r && k !in p ==> k.0 == userId && exists i :: 0 <= i < |entries| && k.1 == entries[i].0
    ensures forall i :: 0 <= i < |entries| ==> (userId, entries[i].0) in r
    ensures forall k :: k in p && k.0 != userId ==> r[k] == p[k]
    decreases |entries|
  {
    if entries == [] then p
    else
      var r := Stock(p[(userId, entries[0].0) := entries[0].1], userId, entries[1..]);
      assert forall i :: 1 <= i < |entries| ==> entries[i] == entries[1..][i - 1];
      r
  }

  /** The recipe a favorite names: the first stored recipe of that name. */
  function RecipeByName(t: Table<RecipeRow>, name: string): (r: Option<int>)
    requires Valid(t)
    ensures r.Some? ==> r.value in t.rows && t.rows[r.value].name == name
    ensures r.None? <==> forall id :: id in t.rows ==> t.rows[id].name != name
  {
    First(t, (row: RecipeRow) => row.name == name)
  }

  /** The favorites of one user: one row per listed recipe name the store has. */
  function FavoriteRows(t: Table<RecipeRow>, userId: int, names: seq<string>): (r: seq<FavoriteRow>)
    requires Valid(t)
    ensures |r| <= |names|
    ensures forall j :: 0 <= j < |r| ==>
      r[j].userId == userId && r[j].recipeId in t.rows && exists i :: 0 <= i < |names| && t.rows[r[j].recipeId].name == names[i]
    decreases |names|
  {
    if names == [] then []
    else
      var rest := FavoriteRows(t, userId, names[1..]);
      assert forall i :: 0 <= i < |names[1..]| ==> names[1..][i] == names[i + 1];
      match RecipeByName(t, names[0])
      case Some(id) => [FavoriteRow(userId, id)] + rest
      case None => rest
  }

  /** A listed name the store has gives the user a favorite of the first recipe with that name. */
  lemma {:induction false} FavoriteFound(t: Table<RecipeRow>, userId: int, names: seq<string>, i: int)
    requires Valid(t) && 0 <= i < |names| && RecipeByName(t, names[i]).Some?
    ensures FavoriteRow(userId, RecipeByName(t, names[i]).value) in FavoriteRows(t, userId, names)
    decreases |names|
  {
    if i > 0 {
      assert names[i] == names[1..][i - 1];
      FavoriteFound(t, userId, names[1..], i - 1);
    }
  }

  /** Everything the script seeds; the favorites are given per seed user, in the order of the users. */
  datatype Seeds = Seeds(
    ingredients: seq<SeedIngredient>,
    recipes: seq<SeedRecipe>,
    users: seq<SeedUser>,
    stocks: seq<SeedStock>,
    listName: string,
    items: seq<SeedItem>,
    preferences: seq<SeedPreference>,
    favorites: seq<seq<string>>)

  /**
   * The shape the script relies on: a first user to own the pantry, list and preferences, a user
   * for every favorites list, and seed users that do not clash with one another.
   */
  predicate WellFormed(seeds: Seeds) {
    |seeds.users| > 0 && |seeds.favorites| <= |seeds.users| &&
    forall i, j :: 0 <= i < j < |seeds.users| ==>
      seeds.users[i].username != seeds.users[j].username && seeds.users[i].email != seeds.users[j].email &&
      (seeds.users[i].googleId.Some? || seeds.users[j].googleId.Some? ==> seeds.users[i].googleId != seeds.users[j].googleId)
  }

  /**
   * A stored user has the username, the e-mail or the Google id of a seed user: the unique columns
   * reject that seed.
   */
  predicate Taken(seeds: Seeds, u: UserRow) {
    exists i :: 0 <= i < |seeds.users| &&
      (u.username == seeds.users[i].username || u.email == seeds.users[i].email ||
       (seeds.users[i].googleId.Some? && u.googleId == seeds.users[i].googleId))
  }

  /** The favorites of the seed users `k ..`, the user of list `k` being `firstUser + k`. */
  function AllFavoriteRows(t: Table<RecipeRow>, firstUser: int, lists: seq<seq<string>>, k: nat): (r: seq<FavoriteRow>)
    requires Valid(t) && k <= |lists|
    ensures forall j :: 0 <= j < |r| ==>
      firstUser + k <= r[j].userId < firstUser + |lists| && r[j].recipeId in t.rows
    decreases |lists| - k
  {
    if k == |lists| then []
    else FavoriteRows(t, firstUser + k, lists[k]) + AllFavoriteRows(t, firstUser, lists, k + 1)
  }

  lemma ProbeUnfold(t: Table<RecipeRow>, firstUser: int, lists: seq<seq<string>>, k: nat)
    requires Valid(t) && k < |lists|
    ensures AllFavoriteRows(t, firstUser, lists, k) == FavoriteRows(t, firstUser + k, lists[k]) + AllFavoriteRows(t, firstUser, lists, k + 1)
  {
  }

  /** The rows from `k` on keep those from `k + 1` on. */
  lemma LaterFavoriteKept(t: Table<RecipeRow>, firstUser: int, lists: seq<seq<string>>, k: nat, x: FavoriteRow)
    requires Valid(t) && k < |lists|
    requires x in AllFavoriteRows(t, firstUser, lists, k + 1)
    ensures x in AllFavoriteRows(t, firstUser, lists, k)
  {
    assert AllFavoriteRows(t, firstUser, lists, k) == FavoriteRows(t, firstUser + k, lists[k]) + AllFavoriteRows(t, firstUser, lists, k + 1);
  }

  /** The rows from `k` on begin with user `k`'s favorites. */
  lemma FirstFavoriteKept(t: Table<RecipeRow>, firstUser: int, lists: seq<seq<string>>, k: nat, x: FavoriteRow)
    requires Valid(t) && k < |lists|
    requires x in FavoriteRows(t, firstUser + k, lists[k])
    ensures x in AllFavoriteRows(t, firstUser, lists, k)
  {
    assert AllFavoriteRows(t, firstUser, lists, k) == FavoriteRows(t, firstUser + k, lists[k]) + AllFavoriteRows(t, firstUser, lists, k + 1);
  }

  /**
   * Every favorite of a seed user from `k` on is among the rows: with `FavoriteFound`, a listed
   * name the store has gives its user a favorite.
   */
  lemma {:induction false} AllFavoritesKept(t: Table<RecipeRow>, firstUser: int, lists: seq<seq<string>>, k: nat, u: int, x: FavoriteRow)
    requires Valid(t) && k <= u < |lists| && x in FavoriteRows(t, firstUser + u, lists[u])
    ensures x in AllFavoriteRows(t, firstUser, lists, k)
    decreases |lists| - k
  {
    if u == k {
      FirstFavoriteKept(t, firstUser, lists, u, x);
    } else {
      AllFavoritesKept(t, firstUser, lists, k + 1, u, x);
      LaterFavoriteKept(t, firstUser, lists, k, x);
    }
  }

  // ---------------------------------------------------------------- the three commits

  /** The first two commits: the seed ingredients, then the seed recipes linked against them. */
  function SeedCatalog(db: Db, seeds: Seeds): (r: Db)
    requires ValidDb(db)
    ensures ValidDb(r) && r == db.(ingredients := r.ingredients, recipes := r.recipes)
    ensures r.ingredients == InsertAll(db.ingredients, IngredientRows(seeds.ingredients))
    ensures r.recipes == InsertAll(db.recipes, RecipeRows(r.ingredients, seeds.recipes))
  {
    var ingredients := InsertAll(db.ingredients, IngredientRows(seeds.ingredients));
    db.(ingredients := ingredients, recipes := InsertAll(db.recipes, RecipeRows(ingredients, seeds.recipes)))
  }

  /** The entry is the ingredient and amount of some seed stock entry, expiring `days` on. */
  predicate StockedFrom(t: Table<IngredientRow>, stocks: seq<SeedStock>, dateIn: int -> string, e: (int, PantryRow))
    requires Valid(t)
  {
    exists i :: 0 <= i < |stocks| &&
      FindByName(t, stocks[i].name) == Some(e.0) && e.1 == PantryRow(Some(stocks[i].amount), Some(dateIn(stocks[i].days)))
  }

  /** The pantry entries of the seed stock whose ingredient name is stored; `dateIn(n)` is the date `n` days on. */
  function StockEntries(t: Table<IngredientRow>, stocks: seq<SeedStock>, dateIn: int -> string): (r: seq<(int, PantryRow)>)
    requires Valid(t)
    ensures forall j :: 0 <= j < |r| ==> r[j].0 in t.rows
    ensures forall j :: 0 <= j < |r| ==> StockedFrom(t, stocks, dateIn, r[j])
    ensures forall i :: 0 <= i < |stocks| && FindByName(t, stocks[i].name).Some? ==>
      (FindByName(t, stocks[i].name).value, PantryRow(Some(stocks[i].amount), Some(dateIn(stocks[i].days)))) in r
  {
    var find := (n: string) => FindByName(t, n);
    var name := (s: SeedStock) => s.name;
    var make := (s: SeedStock, id: int) => (id, PantryRow(Some(s.amount), Some(dateIn(s.days))));
    var r := ByName(find, stocks, name, make);
    forall j | 0 <= j < |r| ensures StockedFrom(t, stocks, dateIn, r[j]) {
      var i :| 0 <= i < |stocks| && MadeFrom(find, name, make, stocks[i], r[j]);
    }
    forall i | 0 <= i < |stocks| && FindByName(t, stocks[i].name).Some?
      ensures (FindByName(t, stocks[i].name).value, PantryRow(Some(stocks[i].amount), Some(dateIn(stocks[i].days)))) in r
    {
      ByNameFound(find, stocks, name, make, i);
    }
    r
  }

  /** The item is some seed item's ingredient, amount and flag, on list `listId`. */
  predicate ListedFrom(t: Table<IngredientRow>, listId: int, items: seq<SeedItem>, row: ItemRow)
    requires Valid(t)
  {
    exists i :: 0 <= i < |items| &&
      FindByName(t, items[i].name) == Some(row.ingredientId) && row == ItemRow(listId, row.ingredientId, Some(items[i].amount), items[i].purchased)
  }

  /** The items of the shopping list `listId` whose ingredient name is stored. */
  function ItemRows(t: Table<IngredientRow>, listId: int, items: seq<SeedItem>): (r: seq<ItemRow>)
    requires Valid(t)
    ensures forall j :: 0 <= j < |r| ==> r[j].listId == listId && r[j].ingredientId in t.rows
    ensures forall j :: 0 <= j < |r| ==> ListedFrom(t, listId, items, r[j])
    ensures forall i :: 0 <= i < |items| && FindByName(t, items[i].name).Some? ==>
      ItemRow(listId, FindByName(t, items[i].name).value, Some(items[i].amount), items[i].purchased) in r
  {
    var find := (n: string) => FindByName(t, n);
    var name := (s: SeedItem) => s.name;
    var make := (s: SeedItem, id: int) => ItemRow(listId, id, Some(s.amount), s.purchased);
    var r := ByName(find, items, name, make);
    forall j | 0 <= j < |r| ensures ListedFrom(t, listId, items, r[j]) {
      var i :| 0 <= i < |items| && MadeFrom(find, name, make, items[i], r[j]);
    }
    forall i | 0 <= i < |items| && FindByName(t, items[i].name).Some?
      ensures ItemRow(listId, FindByName(t, items[i].name).value, Some(items[i].amount), items[i].purchased) in r
    {
      ByNameFound(find, items, name, make, i);
    }
    r
  }

  /**
   * The third commit: the seed users; the first user's pantry, shopping list with its items, and
   * preferences; each user's favorites. Entries whose ingredient or recipe name is unknown are skipped.
   */
  function SeedAccounts(db: Db, seeds: Seeds, dateIn: int -> string): (r: Db)
    requires ValidDb(db)
    ensures ValidDb(r) && r.ingredients == db.ingredients && r.recipes == db.recipes
    ensures r.users == InsertAll(db.users, UserRows(seeds.users))
    ensures r.pantry == Stock(db.pantry, db.users.next, StockEntries(db.ingredients, seeds.stocks, dateIn))
    ensures r.shoppingLists == Table(db.shoppingLists.rows[db.shoppingLists.next := ShoppingListRow(db.users.next, Some(seeds.listName))],
                                     db.shoppingLists.next + 1)
    ensures r.items == InsertAll(db.items, ItemRows(db.ingredients, db.shoppingLists.next, seeds.items))
    ensures r.preferences == InsertAll(db.preferences, PreferenceRows(db.users.next, seeds.preferences))
    ensures r.favorites == InsertAll(db.favorites, AllFavoriteRows(db.recipes, db.users.next, seeds.favorites, 0))
  {
    var u := db.users.next;
    var listId := db.shoppingLists.next;
    db.(users := InsertAll(db.users, UserRows(seeds.users)),
        pantry := Stock(db.pantry, u, StockEntries(db.ingredients, seeds.stocks, dateIn)),
        shoppingLists := Table(db.shoppingLists.rows[listId := ShoppingListRow(u, Some(seeds.listName))], listId + 1),
        items := InsertAll(db.items, ItemRows(db.ingredients, listId, seeds.items)),
        preferences := InsertAll(db.preferences, PreferenceRows(u, seeds.preferences)),
        favorites := InsertAll(db.favorites, AllFavoriteRows(db.recipes, u, seeds.favorites, 0)))
  }

  /** A property every inserted row has holds of every row the insertion adds. */
  lemma {:induction false} AddedRowsFrom<T>(t: Table<T>, rows: seq<T>, p: T -> bool)
    requires Valid(t) && forall j :: 0 <= j < |rows| ==> p(rows[j])
    ensures var r := InsertAll(t, rows);
            forall id :: id in r.rows && id !in t.rows ==> p(r.rows[id])
  {
    var r := InsertAll(t, rows);
    forall id | id in r.rows && id !in t.rows ensures p(r.rows[id]) {
      assert r.rows[id] == rows[id - t.next];
    }
  }

  /** Every row the third commit adds belongs to a new seed user and points at a stored ingredient or recipe. */
  lemma SeededRowsBelongToSeedUsers(db: Db, seeds: Seeds, dateIn: int -> string)
    requires ValidDb(db) && |seeds.favorites| <= |seeds.users|
    ensures var r := SeedAccounts(db, seeds, dateIn);
            (forall k :: k in r.pantry && k !in db.pantry ==> k.0 == db.users.next && k.1 in db.ingredients.rows) &&
            (forall id :: id in r.items.rows && id !in db.items.rows ==>
               r.items.rows[id].listId == db.shoppingLists.next && r.items.rows[id].ingredientId in db.ingredients.rows) &&
            (forall id :: id in r.preferences.rows && id !in db.preferences.rows ==> r.preferences.rows[id].userId == db.users.next) &&
            (forall id :: id in r.favorites.rows && id !in db.favorites.rows ==>
               db.users.next <= r.favorites.rows[id].userId < r.users.next && r.favorites.rows[id].recipeId in db.recipes.rows)
  {
    var u := db.users.next;
    var stock := StockEntries(db.ingredients, seeds.stocks, dateIn);
    var pantry := Stock(db.pantry, u, stock);
    forall k | k in pantry && k !in db.pantry ensures k.0 == u && k.1 in db.ingredients.rows {
      var i :| 0 <= i < |stock| && k.1 == stock[i].0;
    }
    var listId := db.shoppingLists.next;
    AddedRowsFrom(db.items, ItemRows(db.ingredients, listId, seeds.items),
                  (row: ItemRow) => row.listId == listId && row.ingredientId in db.ingredients.rows);
    AddedRowsFrom(db.preferences, PreferenceRows(u, seeds.preferences), (row: PreferenceRow) => row.userId == u);
    var last := u + |seeds.users|;
    AddedRowsFrom(db.favorites, AllFavoriteRows(db.recipes, u, seeds.favorites, 0),
                  (row: FavoriteRow) => u <= row.userId < last && row.recipeId in db.recipes.rows);
  }

  /** What a run of the script leaves behind. */
  datatype Seeding =
    | Skipped            // the store already had ingredients; nothing was written
    | Seeded(db: Db)     // every commit went through
    | Failed(db: Db)     // a seed user clashed with a stored one; only the first two commits stand

  /** `init_db`; `dateIn(n)` is the date `n` days after the run, the clock being outside the model. */
  function Seed(db: Db, seeds: Seeds, dateIn: int -> string): (r: Seeding)
    requires ValidDb(db)
    ensures r.Skipped? <==> db.ingredients.rows != map[]
    ensures r.Failed? <==> db.ingredients.rows == map[] && exists id :: id in db.users.rows && Taken(seeds, db.users.rows[id])
    ensures r.Failed? ==> r.db == SeedCatalog(db, seeds)
    ensures r.Seeded? ==> r.db == SeedAccounts(SeedCatalog(db, seeds), seeds, dateIn)
  {
    if db.ingredients.rows != map[] then Skipped
    else
      var catalog := SeedCatalog(db, seeds);
      if First(catalog.users, (u: UserRow) => Taken(seeds, u)).Some? then Failed(catalog)
      else Seeded(SeedAccounts(catalog, seeds, dateIn))
  }

  // ---------------------------------------------------------------- properties

  /** A run that was not skipped leaves ingredients behind, so every later run is skipped, even after a failure. */
  lemma SeedingTwiceSkips(db: Db, seeds: Seeds, dateIn: int -> string, later: int -> string)
    requires ValidDb(db) && |seeds.ingredients| > 0
    ensures var r := Seed(db, seeds, dateIn);
            !r.Skipped? ==> ValidDb(r.db) && Seed(r.db, seeds, later).Skipped?
  {
    SeedKeepsCatalog(db, seeds, dateIn);
    var id := db.ingredients.next;
    assert id in SeedCatalog(db, seeds).ingredients.rows;
  }

  /** After seeding, a name finds an ingredient exactly when it is one of the seed names. */
  lemma SeededNamesResolve(db: Db, seeds: Seeds, dateIn: int -> string, name: string)
    requires ValidDb(db)
    ensures var r := Seed(db, seeds, dateIn);
            !r.Skipped? ==> (FindByName(r.db.ingredients, name).Some? <==> Listed(name, seeds.ingredients))
  {
    SeedKeepsCatalog(db, seeds, dateIn);
    if db.ingredients.rows == map[] {
      SeededNameFound(db.ingredients, seeds.ingredients, name);
    }
  }

  /** A seeding that is not skipped leaves the ingredients and recipes of the first two commits. */
  lemma SeedKeepsCatalog(db: Db, seeds: Seeds, dateIn: int -> string)
    requires ValidDb(db)
    ensures var r := Seed(db, seeds, dateIn);
            !r.Skipped? ==> r.db.ingredients == SeedCatalog(db, seeds).ingredients && r.db.recipes == SeedCatalog(db, seeds).recipes
  {
  }

  /** The second commit stores seed recipe `i` under the i-th new key. */
  lemma CatalogRowAt(db: Db, seeds: Seeds, i: int)
    requires ValidDb(db) && 0 <= i < |seeds.recipes|
    ensures var c := SeedCatalog(db, seeds);
            db.recipes.next + i in c.recipes.rows &&
            c.recipes.rows[db.recipes.next + i] == SeedRecipeRow(c.ingredients, seeds.recipes[i])
  {
    var c := SeedCatalog(db, seeds);
    InsertedAt(db.recipes, RecipeRows(c.ingredients, seeds.recipes), i);
  }

  /** After seeding, seed recipe `i` is the row stored under the i-th new key. */
  lemma SeededRowAt(db: Db, seeds: Seeds, dateIn: int -> string, i: int)
    requires ValidDb(db) && 0 <= i < |seeds.recipes|
    ensures var r := Seed(db, seeds, dateIn);
            !r.Skipped? ==>
              db.recipes.next + i in r.db.recipes.rows &&
              r.db.recipes.rows[db.recipes.next + i] == SeedRecipeRow(r.db.ingredients, seeds.recipes[i])
  {
    SeedKeepsCatalog(db, seeds, dateIn);
    CatalogRowAt(db, seeds, i);
  }

  /** After seeding, seed recipe `i` is stored under the i-th new key with the links its names resolve to and its steps numbered as given. */
  lemma SeededRecipeStored(db: Db, seeds: Seeds, dateIn: int -> string, i: int)
    requires ValidDb(db) && 0 <= i < |seeds.recipes|
    ensures var r := Seed(db, seeds, dateIn);
            !r.Skipped? ==>
              db.recipes.next + i in r.db.recipes.rows &&
              var row := r.db.recipes.rows[db.recipes.next + i];
              row.name == seeds.recipes[i].name && row.links == SeedLinks(r.db.ingredients, seeds.recipes[i].links) &&
              |row.steps| == |seeds.recipes[i].steps| &&
              forall j :: 0 <= j < |row.steps| ==> row.steps[j].number == seeds.recipes[i].steps[j].number
  {
    SeededRowAt(db, seeds, dateIn, i);
  }

  /** The rows carry the seed users' usernames, e-mails and Google ids, in order. */
  predicate Carries(rows: seq<UserRow>, seeds: Seeds) {
    |rows| == |seeds.users| && forall i :: 0 <= i < |seeds.users| ==>
      rows[i] == UserRow(seeds.users[i].username, seeds.users[i].email, seeds.users[i].googleId)
  }

  /** The row of one seed user differs from a stored user no seed user clashes with. */
  lemma NotTakenDiffers(seeds: Seeds, rows: seq<UserRow>, u: UserRow, i: int)
    requires Carries(rows, seeds) && !Taken(seeds, u) && 0 <= i < |rows|
    ensures UsersDiffer(u, rows[i])
  {
  }

  /** The rows of two different seed users differ in username and e-mail. */
  lemma SeedUsersDiffer(seeds: Seeds, rows: seq<UserRow>, i: int, j: int)
    requires WellFormed(seeds) && Carries(rows, seeds) && 0 <= i < |rows| && 0 <= j < |rows| && i != j
    ensures UsersDiffer(rows[i], rows[j])
  {
    if i > j {
      assert seeds.users[j].username != seeds.users[i].username;
    }
  }

  /** Seed users that clash neither with the stored users nor with one another keep the users unique. */
  lemma AddedUsersUnique(t: Table<UserRow>, seeds: Seeds)
    requires Valid(t) && UsersUnique(t) && WellFormed(seeds)
    requires forall id :: id in t.rows ==> !Taken(seeds, t.rows[id])
    ensures UsersUnique(InsertAll(t, UserRows(seeds.users)))
  {
    AddedRowsUnique(t, seeds, UserRows(seeds.users));
  }

  /** The same, for any rows carrying the seed users' usernames and e-mails in order. */
  lemma AddedRowsUnique(t: Table<UserRow>, seeds: Seeds, rows: seq<UserRow>)
    requires Valid(t) && UsersUnique(t) && WellFormed(seeds)
    requires forall id :: id in t.rows ==> !Taken(seeds, t.rows[id])
    requires Carries(rows, seeds)
    ensures UsersUnique(InsertAll(t, rows))
  {
    forall a, b | a in InsertAll(t, rows).rows && b in InsertAll(t, rows).rows && a != b
      ensures UsersDiffer(InsertAll(t, rows).rows[a], InsertAll(t, rows).rows[b])
    {
      AddedPairDiffers(t, seeds, rows, a, b);
    }
  }

  /** Two users after the insert, each either stored before or the row of a seed user, differ. */
  lemma AddedPairDiffers(t: Table<UserRow>, seeds: Seeds, rows: seq<UserRow>, a: int, b: int)
    requires Valid(t) && UsersUnique(t) && WellFormed(seeds) && a != b
    requires forall id :: id in t.rows ==> !Taken(seeds, t.rows[id])
    requires Carries(rows, seeds)
    requires a in InsertAll(t, rows).rows && b in InsertAll(t, rows).rows
    ensures UsersDiffer(InsertAll(t, rows).rows[a], InsertAll(t, rows).rows[b])
  {
    var t' := InsertAll(t, rows);
    InsertedKey(t, rows, a);
    InsertedKey(t, rows, b);
    var u, v := t'.rows[a], t'.rows[b];
    if a in t.rows && b in t.rows {
    } else if a in t.rows {
      NotTakenDiffers(seeds, rows, u, b - t.next);
    } else if b in t.rows {
      NotTakenDiffers(seeds, rows, v, a - t.next);
      assert UsersDiffer(v, u);
    } else {
      SeedUsersDiffer(seeds, rows, a - t.next, b - t.next);
    }
  }

  /**
   * The check before the third commit keeps usernames, e-mails and Google ids unique: a seeding that goes
   * through adds users that clash neither with the stored ones nor with one another.
   */
  lemma SeedingKeepsUsersUnique(db: Db, seeds: Seeds, dateIn: int -> string)
    requires ValidDb(db) && UsersUnique(db.users) && WellFormed(seeds)
    ensures var r := Seed(db, seeds, dateIn);
            r.Seeded? ==> UsersUnique(r.db.users)
  {
    var r := Seed(db, seeds, dateIn);
    if r.Seeded? {
      var catalog := SeedCatalog(db, seeds);
      assert First(catalog.users, (u: UserRow) => Taken(seeds, u)).None?;
      assert catalog.users == db.users;
      AddedUsersUnique(db.users, seeds);
    }
  }

  /**
   * Seeding an empty store keeps a recipe whose first ingredient name is not a seed ingredient but
   * whose other names are, with one link fewer than entries.
   */
  lemma UnlistedHeadDropped(db: Db, seeds: Seeds, dateIn: int -> string, i: int)
    requires ValidDb(db) && db.ingredients.rows == map[] && 0 <= i < |seeds.recipes|
    requires |seeds.recipes[i].links| > 0 && !Listed(seeds.recipes[i].links[0].name, seeds.ingredients)
    requires forall j :: 1 <= j < |seeds.recipes[i].links| ==> Listed(seeds.recipes[i].links[j].name, seeds.ingredients)
    ensures var r := Seed(db, seeds, dateIn);
            db.recipes.next + i in r.db.recipes.rows &&
            r.db.recipes.rows[db.recipes.next + i].name == seeds.recipes[i].name &&
            |r.db.recipes.rows[db.recipes.next + i].links| == |seeds.recipes[i].links| - 1
  {
    var r := Seed(db, seeds, dateIn);
    var links := seeds.recipes[i].links;
    SeededRecipeStored(db, seeds, dateIn, i);
    var t := r.db.ingredients;
    SeededNamesResolve(db, seeds, dateIn, links[0].name);
    forall j | 1 <= j < |links| ensures FindByName(t, links[j].name).Some? {
      SeededNamesResolve(db, seeds, dateIn, links[j].name);
    }
    UnknownHeadIsDropped(t, links);
  }

  /** An entry whose name the table lacks is skipped; when it is the only one, one link fewer than entries remains. */
  lemma UnknownHeadIsDropped(t: Table<IngredientRow>, links: seq<SeedLink>)
    requires Valid(t) && |links| > 0 && FindByName(t, links[0].name).None?
    requires forall i :: 1 <= i < |links| ==> FindByName(t, links[i].name).Some?
    ensures |SeedLinks(t, links)| == |links| - 1
  {
    assert SeedLinks(t, links) == SeedLinks(t, links[1..]);
    assert forall i :: 0 <= i < |links[1..]| ==> links[1..][i] == links[i + 1];
  }
}
