/**
 * The `/users` routes: account creation with unique username and e-mail, the pantry
 * (user ingredients, one row per user and ingredient), shopping lists and their items, and
 * preferences without repeats.
 */
module UserRoutes {
  import opened Wrappers
  import opened RecordStore
  import Text

  // ---------------------------------------------------------------- users

  /**
   * Two users that the unique columns let stand side by side: different usernames, different
   * e-mails, and different Google ids unless neither has one (a unique column admits many NULLs).
   */
  predicate UsersDiffer(u: UserRow, v: UserRow) {
    u.username != v.username && u.email != v.email &&
    (u.googleId.Some? || v.googleId.Some? ==> u.googleId != v.googleId)
  }

  /** No two users share a username, an e-mail address or a Google id. */
  predicate UsersUnique(t: Table<UserRow>) {
    forall a, b :: a in t.rows && b in t.rows && a != b ==> UsersDiffer(t.rows[a], t.rows[b])
  }

  /** `POST /users`: the three fields are required; a taken username or e-mail is refused; the account has no Google id. */
  function CreateUser(db: Db, username: Option<string>, email: Option<string>, password: Option<string>): (r: (Db, Reply))
    requires ValidDb(db)
    ensures ValidDb(r.0)
    ensures r.1.status == 400 <==>
      username.None? || email.None? || password.None? ||
      First(db.users, (u: UserRow) => u.username == username.value).Some? ||
      First(db.users, (u: UserRow) => u.email == email.value).Some?
    ensures r.1.status == 400 ==> r.0 == db
    ensures r.1.status != 400 ==>
      r.1.status == 201 && r.1.id.Some? && r.1.id.value !in db.users.rows &&
      r.0 == db.(users := Table(db.users.rows[r.1.id.value := UserRow(username.value, email.value, None)], db.users.next + 1))
  {
    if username.None? then (db, Fail(400, "Missing required field: username"))
    else if email.None? then (db, Fail(400, "Missing required field: email"))
    else if password.None? then (db, Fail(400, "Missing required field: password"))
    else if First(db.users, (u: UserRow) => u.username == username.value).Some? then (db, Fail(400, "Username already exists"))
    else if First(db.users, (u: UserRow) => u.email == email.value).Some? then (db, Fail(400, "Email already exists"))
    else
      var (t, id) := Insert(db.users, UserRow(username.value, email.value, None));
      (db.(users := t), Ok(201, id))
  }

  /** Account creation keeps usernames and e-mail addresses unique. */
  lemma CreateUserKeepsUnique(db: Db, username: Option<string>, email: Option<string>, password: Option<string>)
    requires ValidDb(db) && UsersUnique(db.users)
    ensures UsersUnique(CreateUser(db, username, email, password).0.users)
  {
    var (db', reply) := CreateUser(db, username, email, password);
    if reply.status != 400 {
      var id := reply.id.value;
      forall a, b | a in db'.users.rows && b in db'.users.rows && a != b
        ensures UsersDiffer(db'.users.rows[a], db'.users.rows[b])
      {
        if a == id {
          assert db.users.rows[b] == db'.users.rows[b];
        } else if b == id {
          assert db.users.rows[a] == db'.users.rows[a];
        }
      }
    }
  }

  // ---------------------------------------------------------------- pantry

  /**
   * The body of `POST /users/<id>/ingredients`. `amount` and `expiry` are `None` when the key is
   * absent and `Some(v)` when present; the expiry date is kept as its ISO text.
   */
  datatype PantryInput = PantryInput(ref: IngredientRef, amount: Option<Option<real>>, expiry: Option<Option<string>>)

  /** `'expiry_date' in data and data['expiry_date']`. */
  predicate GivesExpiry(input: PantryInput) {
    input.expiry.Some? && input.expiry.value.Some? && input.expiry.value.value != ""
  }

  /**
   * `datetime.fromisoformat` accepts the expiry text; otherwise the handler raises before its
   * commit, the request ends in a 500 and the session, ingredient row included, is rolled back.
   */
  predicate ExpiryParses(input: PantryInput) {
    GivesExpiry(input) ==> Text.IsoDate(input.expiry.value.value)
  }

  /** The pantry row after the upsert: an existing row changes only where the body says so. */
  function MergePantry(existing: Option<PantryRow>, input: PantryInput): (row: PantryRow)
    ensures existing.Some? && input.amount.None? ==> row.amount == existing.value.amount
    ensures existing.Some? && !GivesExpiry(input) ==> row.expiry == existing.value.expiry
    ensures input.amount.Some? ==> row.amount == input.amount.value
    ensures GivesExpiry(input) ==> row.expiry == input.expiry.value
    ensures existing.None? && input.amount.None? ==> row.amount.None?
    ensures existing.None? && !GivesExpiry(input) ==> row.expiry.None?
  {
    var base := existing.GetOr(PantryRow(None, None));
    PantryRow(if input.amount.Some? then input.amount.value else base.amount,
              if GivesExpiry(input) then input.expiry.value else base.expiry)
  }

  /** `POST /users/<id>/ingredients`: resolve the ingredient, then update or create the one row for the pair. */
  function AddUserIngredient(db: Db, userId: int, input: PantryInput): (r: (Db, Reply))
    requires ValidDb(db)
    ensures ValidDb(r.0)
    ensures userId !in db.users.rows ==> r.1.status == 404 && r.0 == db
    ensures userId in db.users.rows && input.ref.id.None? && input.ref.name.None? ==> r.1.status == 400 && r.0 == db
    ensures userId in db.users.rows && (input.ref.id.Some? || input.ref.name.Some?) ==>
      (r.1.status == 404 <==> !IdHits(db.ingredients, input.ref) && input.ref.name.None?)
    ensures userId in db.users.rows && input.ref.name.Some? && ExpiryParses(input) ==> r.1.status == 201
    ensures userId in db.users.rows && IdHits(db.ingredients, input.ref) && ExpiryParses(input) ==>
      r.1.status == 201 && r.1.id == input.ref.id && r.0.ingredients == db.ingredients
    ensures r.1.status == 201 && !IdHits(db.ingredients, input.ref) ==>
      input.ref.name.Some? && r.1.id.Some? && r.1.id.value in r.0.ingredients.rows &&
      r.0.ingredients.rows[r.1.id.value].name == input.ref.name.value
    ensures r.1.status == 500 <==>
      userId in db.users.rows && (IdHits(db.ingredients, input.ref) || input.ref.name.Some?) && !ExpiryParses(input)
    ensures r.1.status != 201 ==> r.0 == db
    ensures r.1.status == 201 ==> r.1.id.Some? && ExpiryParses(input)
    ensures r.1.status == 201 ==>
      var ing := r.1.id.value;
      ing in r.0.ingredients.rows && Extends(db.ingredients, r.0.ingredients) &&
      r.0 == db.(ingredients := r.0.ingredients, pantry := r.0.pantry) &&
      (userId, ing) in r.0.pantry &&
      r.0.pantry == db.pantry[(userId, ing) := MergePantry(if (userId, ing) in db.pantry then Some(db.pantry[(userId, ing)]) else None, input)]
  {
    if userId !in db.users.rows then (db, Fail(404, "Not Found"))
    else if input.ref.id.None? && input.ref.name.None? then (db, Fail(400, "Either ingredient_id or ingredient_name is required"))
    else
      var (t, found) := ResolveIngredient(db.ingredients, input.ref);
      match found
      case None => (db, Fail(404, "Ingredient not found"))
      case Some(ing) =>
        if !ExpiryParses(input) then (db, Fail(500, "Internal Server Error"))
        else
          var existing := if (userId, ing) in db.pantry then Some(db.pantry[(userId, ing)]) else None;
          (db.(ingredients := t, pantry := db.pantry[(userId, ing) := MergePantry(existing, input)]), Ok(201, ing))
  }

  /** Adding the same ingredient twice leaves one pantry row, carrying the second body's amount. */
  lemma PantryUpsertKeepsOneRow(db: Db, userId: int, name: string, first: Option<real>, second: Option<real>)
    requires ValidDb(db) && userId in db.users.rows
    ensures var in1 := PantryInput(IngredientRef(None, Some(name), None, None), Some(first), None);
            var in2 := PantryInput(IngredientRef(None, Some(name), None, None), Some(second), None);
            var (db1, r1) := AddUserIngredient(db, userId, in1);
            var (db2, r2) := AddUserIngredient(db1, userId, in2);
            r1.id == r2.id && db2.pantry.Keys == db1.pantry.Keys && db2.pantry[(userId, r2.id.value)].amount == second
  {
    var in1 := PantryInput(IngredientRef(None, Some(name), None, None), Some(first), None);
    var (db1, r1) := AddUserIngredient(db, userId, in1);
    ResolveByNameIsStable(db.ingredients, name, None, None);
  }

  /** A 29 February expiry in a common year fails the request and stores nothing, not even a new ingredient. */
  lemma BadExpiryStoresNothing(db: Db, userId: int, name: string)
    requires ValidDb(db) && userId in db.users.rows
    ensures var input := PantryInput(IngredientRef(None, Some(name), None, None), None, Some(Some("2023-02-29")));
            AddUserIngredient(db, userId, input) == (db, Fail(500, "Internal Server Error"))
  {
    Text.LeapDayIsChecked();
  }

  /** `DELETE /users/<u>/ingredients/<i>`. */
  function DeleteUserIngredient(db: Db, userId: int, ingredientId: int): (r: (Db, Reply))
    ensures r.1.status == 404 <==> (userId, ingredientId) !in db.pantry
    ensures r.1.status == 404 ==> r.0 == db
    ensures r.1.status != 404 ==> r.1.status == 204 && r.0 == db.(pantry := db.pantry - {(userId, ingredientId)})
  {
    if (userId, ingredientId) !in db.pantry then (db, Fail(404, "Not Found"))
    else (db.(pantry := db.pantry - {(userId, ingredientId)}), Reply(204, None, ""))
  }

  // ---------------------------------------------------------------- shopping lists

  /** One line of a shopping list body. */
  datatype ItemInput = ItemInput(ref: IngredientRef, amount: Option<real>, purchased: Option<bool>)

  /** The default name of a new shopping list. */
  const DefaultListName: string := "购物清单"

  /**
   * `id` is a new item of list `listId` made from `line`: it carries the line's amount and
   * purchased flag (false by default), and its ingredient is the one the line's id names when
   * that id was stored, and otherwise a row with the line's name.
   */
  ghost predicate NewItemFor(ings: Table<IngredientRow>, items: Table<ItemRow>, listId: int, line: ItemInput,
                             ings': Table<IngredientRow>, items': Table<ItemRow>, id: int) {
    id !in items.rows && id in items'.rows &&
    items'.rows[id].listId == listId && items'.rows[id].amount == line.amount &&
    items'.rows[id].purchased == line.purchased.GetOr(false) &&
    items'.rows[id].ingredientId in ings'.rows &&
    (IdHits(ings, line.ref) ==> items'.rows[id].ingredientId == line.ref.id.value) &&
    (!IdHits(ings', line.ref) ==> line.ref.name.Some? && ings'.rows[items'.rows[id].ingredientId].name == line.ref.name.value)
  }

  /** Every line naming an ingredient by name, or by a stored id, made an item. */
  predicate LinesResolved(ings: Table<IngredientRow>, lines: seq<ItemInput>, ids: seq<Option<int>>) {
    |ids| == |lines| &&
    forall k :: 0 <= k < |lines| && (lines[k].ref.name.Some? || IdHits(ings, lines[k].ref)) ==> ids[k].Some?
  }

  /** A line with neither an id nor a name made no item. */
  predicate UnnamedSkipped(lines: seq<ItemInput>, ids: seq<Option<int>>) {
    |ids| == |lines| &&
    forall k :: 0 <= k < |lines| && lines[k].ref.id.None? && lines[k].ref.name.None? ==> ids[k].None?
  }

  /** Each item made is the new item for its line. */
  ghost predicate ItemsMade(ings: Table<IngredientRow>, items: Table<ItemRow>, listId: int, lines: seq<ItemInput>,
                            ings': Table<IngredientRow>, items': Table<ItemRow>, ids: seq<Option<int>>) {
    |ids| == |lines| &&
    forall k :: 0 <= k < |lines| && ids[k].Some? ==> NewItemFor(ings, items, listId, lines[k], ings', items', ids[k].value)
  }

  /** Items are created in line order. */
  predicate Increasing(ids: seq<Option<int>>) {
    forall k, l :: 0 <= k < l < |ids| && ids[k].Some? && ids[l].Some? ==> ids[k].value < ids[l].value
  }

  /** No item appears beyond the old ones and the ones made. */
  predicate OnlyNewItems(items: Table<ItemRow>, items': Table<ItemRow>, ids: seq<Option<int>>) {
    forall id :: id in items'.rows ==> id in items.rows || Some(id) in ids
  }

  /**
   * `ids[k]` is the item made from line `k`, or `None` for a line naming no ingredient; items
   * are created in line order, repeats kept, and no other item appears.
   */
  ghost predicate ItemsAdded(ings: Table<IngredientRow>, items: Table<ItemRow>, listId: int, lines: seq<ItemInput>,
                             ings': Table<IngredientRow>, items': Table<ItemRow>, ids: seq<Option<int>>) {
    LinesResolved(ings, lines, ids) && UnnamedSkipped(lines, ids) &&
    ItemsMade(ings, items, listId, lines, ings', items', ids) &&
    Increasing(ids) && OnlyNewItems(items, items', ids)
  }

  /** A new item stays a new item of the earlier store once more rows are added around it. */
  lemma NewItemForEarlier(ings: Table<IngredientRow>, items: Table<ItemRow>, ings1: Table<IngredientRow>, items1: Table<ItemRow>,
                          listId: int, line: ItemInput, ings2: Table<IngredientRow>, items2: Table<ItemRow>, id: int)
    requires Extends(ings, ings1) && Extends(items, items1)
    requires NewItemFor(ings1, items1, listId, line, ings2, items2, id)
    ensures NewItemFor(ings, items, listId, line, ings2, items2, id)
  {
  }

  lemma LinesResolvedCons(ings: Table<IngredientRow>, ings1: Table<IngredientRow>, lines: seq<ItemInput>,
                          head: Option<int>, ids: seq<Option<int>>)
    requires |lines| > 0 && Extends(ings, ings1) && LinesResolved(ings1, lines[1..], ids)
    requires head.None? ==> !IdHits(ings, lines[0].ref) && lines[0].ref.name.None?
    ensures LinesResolved(ings, lines, [head] + ids)
  {
    var r := [head] + ids;
    forall k | 1 <= k < |lines| && (lines[k].ref.name.Some? || IdHits(ings, lines[k].ref))
      ensures r[k].Some?
    {
      var line := lines[1..][k - 1];
      assert line == lines[k] && r[k] == ids[k - 1];
      if IdHits(ings, line.ref) {
        var i := line.ref.id.value;
        assert i in ings.rows;
        assert i in ings1.rows;
        assert IdHits(ings1, lines[1..][k - 1].ref);
      }
    }
  }

  lemma UnnamedSkippedCons(lines: seq<ItemInput>, head: Option<int>, ids: seq<Option<int>>)
    requires |lines| > 0 && UnnamedSkipped(lines[1..], ids)
    requires head.Some? ==> lines[0].ref.id.Some? || lines[0].ref.name.Some?
    ensures UnnamedSkipped(lines, [head] + ids)
  {
    var r := [head] + ids;
    assert forall k :: 1 <= k < |lines| ==> lines[k] == lines[1..][k - 1] && r[k] == ids[k - 1];
  }

  lemma ItemsMadeCons(ings: Table<IngredientRow>, items: Table<ItemRow>, ings1: Table<IngredientRow>, items1: Table<ItemRow>,
                      listId: int, lines: seq<ItemInput>, ings2: Table<IngredientRow>, items2: Table<ItemRow>,
                      head: Option<int>, ids: seq<Option<int>>)
    requires |lines| > 0 && Extends(ings, ings1) && Extends(items, items1)
    requires ItemsMade(ings1, items1, listId, lines[1..], ings2, items2, ids)
    requires head.Some? ==> NewItemFor(ings, items, listId, lines[0], ings2, items2, head.value)
    ensures ItemsMade(ings, items, listId, lines, ings2, items2, [head] + ids)
  {
    var r := [head] + ids;
    forall k | 1 <= k < |lines| && r[k].Some?
      ensures NewItemFor(ings, items, listId, lines[k], ings2, items2, r[k].value)
    {
      assert lines[k] == lines[1..][k - 1] && r[k] == ids[k - 1];
      NewItemForEarlier(ings, items, ings1, items1, listId, lines[k], ings2, items2, ids[k - 1].value);
    }
  }

  lemma IncreasingCons(head: Option<int>, ids: seq<Option<int>>, bound: int)
    requires Increasing(ids)
    requires forall k :: 0 <= k < |ids| && ids[k].Some? ==> bound <= ids[k].value
    requires head.Some? ==> head.value < bound
    ensures Increasing([head] + ids)
  {
    var r := [head] + ids;
    assert forall k :: 1 <= k < |r| ==> r[k] == ids[k - 1];
  }

  lemma OnlyNewItemsCons(items: Table<ItemRow>, items1: Table<ItemRow>, items2: Table<ItemRow>, head: Option<int>, ids: seq<Option<int>>)
    requires OnlyNewItems(items1, items2, ids)
    requires forall id :: id in items1.rows ==> id in items.rows || Some(id) == head
    ensures OnlyNewItems(items, items2, [head] + ids)
  {
    var r := [head] + ids;
    forall id | id in items2.rows && id !in items.rows ensures Some(id) in r {
      if head != Some(id) {
        var k :| 0 <= k < |ids| && ids[k] == Some(id);
        assert r[k + 1] == Some(id);
      }
    }
  }

  /** The first line's outcome in front of the other lines' outcomes adds the items of every line. */
  lemma ItemsAddedCons(ings: Table<IngredientRow>, items: Table<ItemRow>, ings1: Table<IngredientRow>, items1: Table<ItemRow>,
                       listId: int, lines: seq<ItemInput>, ings2: Table<IngredientRow>, items2: Table<ItemRow>,
                       head: Option<int>, ids: seq<Option<int>>)
    requires |lines| > 0 && Extends(ings, ings1) && Extends(items, items1)
    requires ItemsAdded(ings1, items1, listId, lines[1..], ings2, items2, ids)
    requires head.None? ==> !IdHits(ings, lines[0].ref) && lines[0].ref.name.None? && items1 == items
    requires head.Some? ==> lines[0].ref.id.Some? || lines[0].ref.name.Some?
    requires head.Some? ==> NewItemFor(ings, items, listId, lines[0], ings2, items2, head.value) && head.value < items1.next
    requires forall k :: 0 <= k < |ids| && ids[k].Some? ==> items1.next <= ids[k].value
    requires forall id :: id in items1.rows ==> id in items.rows || Some(id) == head
    ensures ItemsAdded(ings, items, listId, lines, ings2, items2, [head] + ids)
  {
    LinesResolvedCons(ings, ings1, lines, head, ids);
    UnnamedSkippedCons(lines, head, ids);
    ItemsMadeCons(ings, items, ings1, items1, listId, lines, ings2, items2, head, ids);
    IncreasingCons(head, ids, items1.next);
    OnlyNewItemsCons(items, items1, items2, head, ids);
  }

  /** The item rows of a new list, one per resolvable line and in line order, repeats kept. */
  function AddItems(ings: Table<IngredientRow>, items: Table<ItemRow>, listId: int, lines: seq<ItemInput>):
    (r: (Table<IngredientRow>, Table<ItemRow>, seq<Option<int>>))
    requires Valid(ings) && Valid(items)
    ensures Valid(r.0) && Valid(r.1) && Extends(ings, r.0) && Extends(items, r.1)
    ensures ItemsAdded(ings, items, listId, lines, r.0, r.1, r.2)
    ensures forall k :: 0 <= k < |r.2| && r.2[k].Some? ==> items.next <= r.2[k].value < r.1.next
    ensures items.next <= r.1.next
    decreases |lines|
  {
    if lines == [] then (ings, items, [])
    else
      var resolved := ResolveIngredient(ings, lines[0].ref);
      var ings1 := resolved.0;
      match resolved.1
      case None =>
        var more := AddItems(ings1, items, listId, lines[1..]);
        var ings2, items2, ids := more.0, more.1, more.2;
        ExtendsTrans(ings, ings1, ings2);
        ItemsAddedCons(ings, items, ings1, items, listId, lines, ings2, items2, None, ids);
        (ings2, items2, [None] + ids)
      case Some(ing) =>
        var inserted := Insert(items, ItemRow(listId, ing, lines[0].amount, lines[0].purchased.GetOr(false)));
        var items1, id := inserted.0, inserted.1;
        var more := AddItems(ings1, items1, listId, lines[1..]);
        var ings2, items2, ids := more.0, more.1, more.2;
        ExtendsTrans(ings, ings1, ings2);
        ExtendsTrans(items, items1, items2);
        assert NewItemFor(ings, items, listId, lines[0], ings2, items2, id) by {
          if !IdHits(ings2, lines[0].ref) {
            assert !IdHits(ings, lines[0].ref);
          }
        }
        ItemsAddedCons(ings, items, ings1, items1, listId, lines, ings2, items2, Some(id), ids);
        (ings2, items2, [Some(id)] + ids)
  }

  /**
   * `POST /users/<id>/shopping-lists`: a new list and its items; unresolvable lines are skipped.
   * A missing or `null` name gives the column default 购物清单.
   */
  function CreateShoppingList(db: Db, userId: int, name: Option<Option<string>>, lines: Option<seq<ItemInput>>): (r: (Db, Reply))
    requires ValidDb(db)
    ensures ValidDb(r.0)
    ensures r.1.status == 404 <==> userId !in db.users.rows
    ensures r.1.status == 404 ==> r.0 == db
    ensures r.1.status != 404 ==>
      r.1.status == 201 && r.1.id.Some? && r.1.id.value !in db.shoppingLists.rows &&
      r.1.id.value in r.0.shoppingLists.rows && r.0.shoppingLists.rows[r.1.id.value].userId == userId &&
      r.0.shoppingLists.rows == db.shoppingLists.rows[r.1.id.value := r.0.shoppingLists.rows[r.1.id.value]] &&
      Extends(db.items, r.0.items) && Extends(db.ingredients, r.0.ingredients) &&
      (forall id :: id in r.0.items.rows && id !in db.items.rows ==> r.0.items.rows[id].listId == r.1.id.value) &&
      r.0 == db.(shoppingLists := r.0.shoppingLists, items := r.0.items, ingredients := r.0.ingredients)
    ensures r.1.status != 404 ==>
      exists ids :: ItemsAdded(db.ingredients, db.items, r.1.id.value, lines.GetOr([]), r.0.ingredients, r.0.items, ids)
    ensures r.1.status == 201 && name.Some? && name.value.Some? ==>
      r.0.shoppingLists.rows[r.1.id.value].name == name.value
    ensures r.1.status == 201 && (name.None? || name.value.None?) ==>
      r.0.shoppingLists.rows[r.1.id.value].name == Some(DefaultListName)
  {
    if userId !in db.users.rows then (db, Fail(404, "Not Found"))
    else
      // A `null` name is left out of the INSERT, so the column default applies as for a missing key.
      var (lists, listId) := Insert(db.shoppingLists, ShoppingListRow(userId, Some(name.GetOr(None).GetOr(DefaultListName))));
      var (ings, items, ids) := AddItems(db.ingredients, db.items, listId, lines.GetOr([]));
      assert forall id :: id in items.rows && id !in db.items.rows ==> items.rows[id].listId == listId by {
        forall id | id in items.rows && id !in db.items.rows ensures items.rows[id].listId == listId {
          var k :| 0 <= k < |ids| && ids[k] == Some(id);
        }
      }
      (db.(shoppingLists := lists, items := items, ingredients := ings), Ok(201, listId))
  }

  /** The same ingredient named on two lines of a new list gives two item rows, with two ids. */
  lemma NewListKeepsRepeats(ings: Table<IngredientRow>, items: Table<ItemRow>, listId: int, name: string)
    requires Valid(ings) && Valid(items)
    ensures var line := ItemInput(IngredientRef(None, Some(name), None, None), None, None);
            var ids := AddItems(ings, items, listId, [line, line]).2;
            ids[0].Some? && ids[1].Some? && ids[0].value != ids[1].value
  {
  }

  /** The item of the list for the ingredient, as `first()` finds it. */
  function ItemFor(items: Table<ItemRow>, listId: int, ing: int): (r: Option<int>)
    requires Valid(items)
    ensures r.Some? ==> r.value in items.rows && items.rows[r.value].listId == listId && items.rows[r.value].ingredientId == ing
    ensures r.None? <==> forall id :: id in items.rows ==> !(items.rows[id].listId == listId && items.rows[id].ingredientId == ing)
  {
    First(items, (row: ItemRow) => row.listId == listId && row.ingredientId == ing)
  }

  /** `amount` and `is_purchased` change where the body carries them; nothing else of an item can. */
  function PatchItem(row: ItemRow, amount: Option<Option<real>>, purchased: Option<bool>): (r: ItemRow)
    ensures r.listId == row.listId && r.ingredientId == row.ingredientId
    ensures r.amount == amount.GetOr(row.amount) && r.purchased == purchased.GetOr(row.purchased)
  {
    ItemRow(row.listId, row.ingredientId, amount.GetOr(row.amount), purchased.GetOr(row.purchased))
  }

  /** The body of `POST /shopping-lists/<id>/items`. */
  datatype ItemBody = ItemBody(ref: IngredientRef, amount: Option<Option<real>>, purchased: Option<bool>)

  /** `POST /shopping-lists/<id>/items`: update the list's item for the ingredient, or add one. */
  function AddShoppingListItem(db: Db, listId: int, body: ItemBody): (r: (Db, Reply))
    requires ValidDb(db)
    ensures ValidDb(r.0)
    ensures listId !in db.shoppingLists.rows ==> r.1.status == 404 && r.0 == db
    ensures listId in db.shoppingLists.rows && body.ref.id.None? && body.ref.name.None? ==> r.1.status == 400 && r.0 == db
    ensures listId in db.shoppingLists.rows && (body.ref.id.Some? || body.ref.name.Some?) ==>
      (r.1.status == 201 <==> body.ref.name.Some? || IdHits(db.ingredients, body.ref))
    ensures listId in db.shoppingLists.rows && (body.ref.id.Some? || body.ref.name.Some?) && r.1.status != 201 ==>
      r.1.status == 404 && r.1.error == "Ingredient not found" && r.0 == db
    ensures r.1.status == 201 ==>
      r.1.id.Some? && r.1.id.value in r.0.items.rows &&
      r.0.items.rows[r.1.id.value].listId == listId &&
      Extends(db.ingredients, r.0.ingredients) &&
      r.0 == db.(ingredients := r.0.ingredients, items := r.0.items)
    ensures r.1.status == 201 ==>
      var ing := r.0.items.rows[r.1.id.value].ingredientId;
      ing in r.0.ingredients.rows &&
      (IdHits(db.ingredients, body.ref) ==> ing == body.ref.id.value) &&
      (!IdHits(db.ingredients, body.ref) ==>
        body.ref.name.Some? && r.0.ingredients.rows[ing].name == body.ref.name.value &&
        FindByName(r.0.ingredients, body.ref.name.value) == Some(ing))
    ensures r.1.status == 201 && r.1.id.value in db.items.rows ==>
      r.0.items == Table(db.items.rows[r.1.id.value := PatchItem(db.items.rows[r.1.id.value], body.amount, body.purchased)], db.items.next)
    ensures r.1.status == 201 && r.1.id.value !in db.items.rows ==>
      ItemFor(db.items, listId, r.0.items.rows[r.1.id.value].ingredientId).None? &&
      Extends(db.items, r.0.items) && r.0.items.rows.Keys == db.items.rows.Keys + {r.1.id.value} &&
      r.0.items.rows[r.1.id.value] ==
        ItemRow(listId, r.0.items.rows[r.1.id.value].ingredientId, body.amount.GetOr(None), body.purchased.GetOr(false))
  {
    if listId !in db.shoppingLists.rows then (db, Fail(404, "Not Found"))
    else if body.ref.id.None? && body.ref.name.None? then (db, Fail(400, "Either ingredient_id or ingredient_name is required"))
    else
      var (ings, found) := ResolveIngredient(db.ingredients, body.ref);
      match found
      case None => (db, Fail(404, "Ingredient not found"))
      case Some(ing) =>
        match ItemFor(db.items, listId, ing)
        case Some(id) =>
          var row := PatchItem(db.items.rows[id], body.amount, body.purchased);
          (db.(ingredients := ings, items := Table(db.items.rows[id := row], db.items.next)), Ok(201, id))
        case None =>
          var (items, id) := Insert(db.items, ItemRow(listId, ing, body.amount.GetOr(None), body.purchased.GetOr(false)));
          (db.(ingredients := ings, items := items), Ok(201, id))
  }

  /**
   * Posting the same ingredient name to a list twice leaves one item for it: the second post
   * answers with the first post's item, changes only its amount and flag, and creates no row.
   */
  lemma SecondPostPatches(db: Db, listId: int, name: string, first: ItemBody, second: ItemBody)
    requires ValidDb(db) && listId in db.shoppingLists.rows
    requires first.ref.name == Some(name) && first.ref.id.None?
    requires second.ref.name == Some(name) && second.ref.id.None?
    ensures var (db1, r1) := AddShoppingListItem(db, listId, first);
            var (db2, r2) := AddShoppingListItem(db1, listId, second);
            r1.status == 201 && r2.status == 201 && r2.id == r1.id &&
            db2.items.rows.Keys == db1.items.rows.Keys && db2.ingredients == db1.ingredients &&
            db2.items.rows[r2.id.value] == PatchItem(db1.items.rows[r1.id.value], second.amount, second.purchased)
  {
    var (db1, r1) := AddShoppingListItem(db, listId, first);
    var ing := db1.items.rows[r1.id.value].ingredientId;
    assert FindByName(db1.ingredients, name) == Some(ing);
    assert ItemFor(db1.items, listId, ing).Some?;
  }

  /** `PUT /shopping-list-items/<id>`. */
  function UpdateShoppingListItem(db: Db, id: int, amount: Option<Option<real>>, purchased: Option<bool>): (r: (Db, Reply))
    requires ValidDb(db)
    ensures ValidDb(r.0)
    ensures r.1.status == 404 <==> id !in db.items.rows
    ensures r.1.status == 404 ==> r.0 == db
    ensures r.1.status != 404 ==>
      r.1.status == 200 && id in r.0.items.rows && r.0.items.rows.Keys == db.items.rows.Keys &&
      (forall other :: other in db.items.rows && other != id ==> r.0.items.rows[other] == db.items.rows[other]) &&
      r.0.items.rows[id] == PatchItem(db.items.rows[id], amount, purchased) &&
      r.0 == db.(items := r.0.items)
  {
    if id !in db.items.rows then (db, Fail(404, "Not Found"))
    else (db.(items := Table(db.items.rows[id := PatchItem(db.items.rows[id], amount, purchased)], db.items.next)), Ok(200, id))
  }

  // ---------------------------------------------------------------- preferences

  /** No user holds the same (type, value) preference twice. */
  predicate PreferencesUnique(t: Table<PreferenceRow>) {
    forall a, b :: a in t.rows && b in t.rows && t.rows[a] == t.rows[b] ==> a == b
  }

  /**
   * `POST /users/<id>/preferences`: both keys required; an identical preference is refused.
   * Each field is `None` when the key is missing and `Some(None)` for a JSON `null`; a `null`
   * matches no stored row under `IS NULL` and then fails the NOT NULL insert with a 500.
   */
  function AddUserPreference(db: Db, userId: int, kind: Option<Option<string>>, value: Option<Option<string>>): (r: (Db, Reply))
    requires ValidDb(db)
    ensures ValidDb(r.0)
    ensures r.1.status == 404 <==> userId !in db.users.rows
    ensures r.1.status == 404 || r.1.status == 400 || r.1.status == 500 || r.1.status == 201
    ensures r.1.status == 500 <==> (userId in db.users.rows && kind.Some? && value.Some? &&
      (kind.value.None? || value.value.None?))
    ensures r.1.status == 400 <==> (userId in db.users.rows &&
      (kind.None? || value.None? ||
       (kind.value.Some? && value.value.Some? &&
        exists id :: id in db.preferences.rows && db.preferences.rows[id] == PreferenceRow(userId, kind.value.value, value.value.value))))
    ensures r.1.status != 201 ==> r.0 == db
    ensures r.1.status == 201 ==>
      kind.Some? && kind.value.Some? && value.Some? && value.value.Some? &&
      r.1.id.Some? && r.1.id.value !in db.preferences.rows &&
      r.0 == db.(preferences := Table(db.preferences.rows[r.1.id.value := PreferenceRow(userId, kind.value.value, value.value.value)], db.preferences.next + 1))
  {
    if userId !in db.users.rows then (db, Fail(404, "Not Found"))
    else if kind.None? then (db, Fail(400, "Missing required field: preference_type"))
    else if value.None? then (db, Fail(400, "Missing required field: value"))
    else if kind.value.None? || value.value.None? then (db, Fail(500, "Internal Server Error"))
    else if First(db.preferences, (p: PreferenceRow) => p == PreferenceRow(userId, kind.value.value, value.value.value)).Some? then
      (db, Fail(400, "This preference already exists"))
    else
      var (t, id) := Insert(db.preferences, PreferenceRow(userId, kind.value.value, value.value.value));
      (db.(preferences := t), Ok(201, id))
  }

  /** Adding preferences never stores the same one twice. */
  lemma AddPreferenceKeepsUnique(db: Db, userId: int, kind: Option<Option<string>>, value: Option<Option<string>>)
    requires ValidDb(db) && PreferencesUnique(db.preferences)
    ensures PreferencesUnique(AddUserPreference(db, userId, kind, value).0.preferences)
  {
    var (db', reply) := AddUserPreference(db, userId, kind, value);
    if reply.status == 201 {
      var id := reply.id.value;
      forall a, b | a in db'.preferences.rows && b in db'.preferences.rows && db'.preferences.rows[a] == db'.preferences.rows[b]
        ensures a == b
      {
        if a != id && b != id {
          assert db.preferences.rows[a] == db.preferences.rows[b];
        }
      }
    }
  }

  /** `DELETE /user-preferences/<id>`. */
  function DeleteUserPreference(db: Db, id: int): (r: (Db, Reply))
    requires ValidDb(db)
    ensures ValidDb(r.0)
    ensures r.1.status == 404 <==> id !in db.preferences.rows
    ensures r.1.status == 404 ==> r.0 == db
    ensures r.1.status != 404 ==> r.1.status == 204 && r.0 == db.(preferences := Table(db.preferences.rows - {id}, db.preferences.next))
  {
    if id !in db.preferences.rows then (db, Fail(404, "Not Found"))
    else (db.(preferences := Table(db.preferences.rows - {id}, db.preferences.next)), Reply(204, None, ""))
  }

  /** `GET /users/<id>/preferences`: the user's preferences, once each. */
  function UserPreferences(db: Db, userId: int): (r: Option<seq<int>>)
    requires ValidDb(db)
    ensures r.None? <==> userId !in db.users.rows
    ensures r.Some? ==> forall id :: id in r.value <==> id in db.preferences.rows && db.preferences.rows[id].userId == userId
  {
    if userId !in db.users.rows then None
    else Some(Where(db.preferences, (p: PreferenceRow) => p.userId == userId))
  }

  /** `DELETE /shopping-list-items/<id>`. */
  function DeleteShoppingListItem(db: Db, id: int): (r: (Db, Reply))
    requires ValidDb(db)
    ensures ValidDb(r.0)
    ensures r.1.status == 404 <==> id !in db.items.rows
    ensures r.1.status == 404 ==> r.0 == db
    ensures r.1.status != 404 ==> r.1.status == 204 && r.0 == db.(items := Table(db.items.rows - {id}, db.items.next))
  {
    if id !in db.items.rows then (db, Fail(404, "Not Found"))
    else (db.(items := Table(db.items.rows - {id}, db.items.next)), Reply(204, None, ""))
  }

  /** `GET /users/<id>/shopping-lists`: the user's lists. */
  function UserShoppingLists(db: Db, userId: int): (r: Option<seq<int>>)
    requires ValidDb(db)
    ensures r.None? <==> userId !in db.users.rows
    ensures r.Some? ==> forall id :: id in r.value <==> id in db.shoppingLists.rows && db.shoppingLists.rows[id].userId == userId
  {
    if userId !in db.users.rows then None
    else Some(Where(db.shoppingLists, (l: ShoppingListRow) => l.userId == userId))
  }

  /** `GET /users/<id>/ingredients`: the ingredient ids of the user's pantry. */
  function UserIngredients(db: Db, userId: int): (r: Option<set<int>>)
    ensures r.None? <==> userId !in db.users.rows
    ensures r.Some? ==> forall ing :: ing in r.value <==> (userId, ing) in db.pantry
  {
    if userId !in db.users.rows then None
    else Some(set key | key in db.pantry && key.0 == userId :: key.1)
  }

  /** An ingredient added to the pantry is listed for the user afterwards. */
  lemma AddedIngredientIsListed(db: Db, userId: int, input: PantryInput)
    requires ValidDb(db)
    requires AddUserIngredient(db, userId, input).1.status == 201
    ensures var (db', reply) := AddUserIngredient(db, userId, input);
            UserIngredients(db', userId).Some? && reply.id.value in UserIngredients(db', userId).value
  {
  }

  /** Deleting a pantry row removes the ingredient from the user's listing and touches no other user's. */
  lemma DeletedIngredientIsUnlisted(db: Db, userId: int, ing: int, other: int)
    requires userId in db.users.rows && other in db.users.rows && other != userId
    ensures var db' := DeleteUserIngredient(db, userId, ing).0;
            ing !in UserIngredients(db', userId).value && UserIngredients(db', other) == UserIngredients(db, other)
  {
    var db' := DeleteUserIngredient(db, userId, ing).0;
    var before := UserIngredients(db, other).value;
    var after := UserIngredients(db', other).value;
    assert forall i :: i in after <==> i in before by {
      forall i ensures i in after <==> i in before {
        assert (other, i) in db'.pantry <==> (other, i) in db.pantry;
      }
    }
    assert before == after;
    assert (userId, ing) !in db'.pantry;
  }
}
