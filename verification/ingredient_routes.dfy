/**
 * The `/ingredients` routes: listing with a category filter, create with a name-uniqueness check,
 * partial update, delete refused while a recipe uses the ingredient, categories and search.
 */
module IngredientRoutes {
  import opened Wrappers
  import opened Text
  import opened RecordStore
  import Seqs

  /** The page-size cap of the listing. */
  const MaxPerPage: int := 100

  /** The page size when the query does not give one. */
  const DefaultPerPage: int := 20

  /** Category filter of the listing: a falsy category filters nothing. */
  predicate InCategory(row: IngredientRow, category: Option<string>) {
    category.None? || category.value == "" || row.category == category
  }

  /** The listing before pagination: the rows of the category (all rows without one), in id order. */
  function IngredientListing(db: Db, category: Option<string>): (ids: seq<int>)
    requires ValidDb(db)
    ensures forall id :: id in ids <==> id in db.ingredients.rows && InCategory(db.ingredients.rows[id], category)
    ensures forall i, j :: 0 <= i < j < |ids| ==> ids[i] < ids[j]
  {
    Where(db.ingredients, (row: IngredientRow) => InCategory(row, category))
  }

  /** `GET /ingredients`: the requested page of the listing; `None` is the 404 for a page that does not exist. */
  function ListIngredients(db: Db, category: Option<string>, page: Option<int>, perPage: Option<int>): (r: Option<Page>)
    requires ValidDb(db)
    ensures r == ListPage(IngredientListing(db, category), page, perPage, DefaultPerPage, MaxPerPage)
    ensures r.Some? ==> r.value.total == |IngredientListing(db, category)| && |r.value.items| <= MaxPerPage
    ensures r.Some? ==> forall k :: 0 <= k < |r.value.items| ==>
      r.value.items[k] in db.ingredients.rows && InCategory(db.ingredients.rows[r.value.items[k]], category)
  {
    var ids := IngredientListing(db, category);
    var r := ListPage(ids, page, perPage, DefaultPerPage, MaxPerPage);
    PageMembers(r, ids);
    r
  }

  /** With a usable page size, every ingredient of the category is on some page. */
  lemma EveryIngredientListed(db: Db, category: Option<string>, perPage: Option<int>, id: int)
    requires ValidDb(db) && id in db.ingredients.rows && InCategory(db.ingredients.rows[id], category)
    requires perPage.GetOr(DefaultPerPage) >= 1
    ensures exists p :: (ListIngredients(db, category, Some(p), perPage).Some? &&
                         id in ListIngredients(db, category, Some(p), perPage).value.items)
  {
    var ids := IngredientListing(db, category);
    var i :| 0 <= i < |ids| && ids[i] == id;
    EveryRowListed(ids, perPage, DefaultPerPage, MaxPerPage, i);
  }

  /**
   * The fields of a create request; `None` is a key the payload does not carry. `name` is
   * `Some(None)` for a JSON `null`, which the route passes on to the NOT NULL column.
   */
  datatype IngredientInput = IngredientInput(name: Option<Option<string>>, unit: Option<string>, category: Option<string>, imageUrl: Option<string>)

  /** No two ingredients share a name. */
  predicate NamesUnique(t: Table<IngredientRow>) {
    forall a, b :: a in t.rows && b in t.rows && t.rows[a].name == t.rows[b].name ==> a == b
  }

  /**
   * `POST /ingredients`. A `null` name finds no row under `IS NULL` (the column is NOT NULL),
   * so the insert is attempted and its commit fails: a 500 with nothing stored.
   */
  function CreateIngredient(db: Db, input: IngredientInput): (r: (Db, Reply))
    requires ValidDb(db)
    ensures ValidDb(r.0)
    ensures r.1.status == 400 <==> input.name.None? || (input.name.value.Some? && FindByName(db.ingredients, input.name.value.value).Some?)
    ensures r.1.status == 500 <==> input.name == Some(None)
    ensures r.1.status == 400 || r.1.status == 500 ==> r.0 == db
    ensures r.1.status != 400 && r.1.status != 500 ==>
      input.name.Some? && input.name.value.Some? &&
      r.1.status == 201 && r.1.id.Some? && r.1.id.value !in db.ingredients.rows &&
      r.0.ingredients.rows == db.ingredients.rows[r.1.id.value := IngredientRow(input.name.value.value, input.unit, input.category, input.imageUrl)] &&
      r.0 == db.(ingredients := r.0.ingredients)
  {
    if input.name.None? then (db, Fail(400, "Missing required field: name"))
    else if input.name.value.None? then (db, Fail(500, "Internal Server Error"))
    else if FindByName(db.ingredients, input.name.value.value).Some? then (db, Fail(400, "Ingredient with this name already exists"))
    else
      var (t, id) := Insert(db.ingredients, IngredientRow(input.name.value.value, input.unit, input.category, input.imageUrl));
      (db.(ingredients := t), Ok(201, id))
  }

  /** Creating ingredients alone never produces two with the same name. */
  lemma CreateKeepsNamesUnique(db: Db, input: IngredientInput)
    requires ValidDb(db) && NamesUnique(db.ingredients)
    ensures NamesUnique(CreateIngredient(db, input).0.ingredients)
  {
    var (db', reply) := CreateIngredient(db, input);
    if reply.status != 400 && reply.status != 500 {
      var id := reply.id.value;
      forall a, b | a in db'.ingredients.rows && b in db'.ingredients.rows && db'.ingredients.rows[a].name == db'.ingredients.rows[b].name
        ensures a == b
      {
        if a != id && b != id {
          assert db.ingredients.rows[a].name == db.ingredients.rows[b].name;
        }
      }
    }
  }

  /**
   * The fields of an update request: every field is `None` when absent and `Some(v)` when
   * present, `v` being the new value or `None` for a JSON `null`.
   */
  datatype IngredientPatch = IngredientPatch(name: Option<Option<string>>, unit: Option<Option<string>>,
                                             category: Option<Option<string>>, imageUrl: Option<Option<string>>)

  /**
   * `PUT /ingredients/<id>`: the keys present replace their columns, nothing else changes. A
   * `null` name is written to the NOT NULL column and the commit fails: a 500, nothing stored.
   */
  function UpdateIngredient(db: Db, id: int, patch: IngredientPatch): (r: (Db, Reply))
    requires ValidDb(db)
    ensures ValidDb(r.0)
    ensures r.1.status == 404 <==> id !in db.ingredients.rows
    ensures r.1.status == 500 <==> id in db.ingredients.rows && patch.name == Some(None)
    ensures r.1.status == 404 || r.1.status == 500 ==> r.0 == db
    ensures r.1.status != 404 && r.1.status != 500 ==> r.1.status == 200 && r.1.id == Some(id) && id in r.0.ingredients.rows
    ensures r.1.status != 404 && r.1.status != 500 ==>
      var old_ := db.ingredients.rows[id];
      var new_ := r.0.ingredients.rows[id];
      r.0 == db.(ingredients := Table(db.ingredients.rows[id := new_], db.ingredients.next)) &&
      (patch.name.None? ==> new_.name == old_.name) &&
      (patch.name.Some? ==> Some(new_.name) == patch.name.value) &&
      new_.unit == patch.unit.GetOr(old_.unit) &&
      new_.category == patch.category.GetOr(old_.category) &&
      new_.imageUrl == patch.imageUrl.GetOr(old_.imageUrl)
  {
    if id !in db.ingredients.rows then (db, Fail(404, "Not Found"))
    else if patch.name == Some(None) then (db, Fail(500, "Internal Server Error"))
    else
      var row := db.ingredients.rows[id];
      var row' := IngredientRow(patch.name.GetOr(Some(row.name)).GetOr(row.name), patch.unit.GetOr(row.unit),
                                patch.category.GetOr(row.category), patch.imageUrl.GetOr(row.imageUrl));
      (db.(ingredients := Table(db.ingredients.rows[id := row'], db.ingredients.next)), Ok(200, id))
  }

  /** An empty patch leaves the store as it is. */
  lemma EmptyPatchChangesNothing(db: Db, id: int)
    requires ValidDb(db) && id in db.ingredients.rows
    ensures UpdateIngredient(db, id, IngredientPatch(None, None, None, None)).0 == db
  {
    var row := db.ingredients.rows[id];
    assert db.ingredients.rows[id := row] == db.ingredients.rows;
  }

  /** The recipe lists the ingredient among its links. */
  predicate UsesIngredient(row: RecipeRow, id: int) {
    exists k :: 0 <= k < |row.links| && row.links[k].ingredientId == id
  }

  /** Some user keeps the ingredient in their pantry. */
  predicate InSomePantry(db: Db, id: int) {
    exists key :: key in db.pantry && key.1 == id
  }

  /**
   * `DELETE /ingredients/<id>`: refused while any recipe links the ingredient. When a pantry row
   * holds it, the delete tries to clear the ingredient column of that row, which is part of the
   * row's primary key and has no delete cascade; the commit raises and the request ends in a 500
   * with nothing deleted.
   */
  function DeleteIngredient(db: Db, id: int): (r: (Db, Reply))
    requires ValidDb(db)
    ensures ValidDb(r.0)
    ensures r.1.status == 404 <==> id !in db.ingredients.rows
    ensures r.1.status == 400 <==> id in db.ingredients.rows && exists rid :: rid in db.recipes.rows && UsesIngredient(db.recipes.rows[rid], id)
    ensures r.1.status == 500 <==>
      id in db.ingredients.rows && (forall rid :: rid in db.recipes.rows ==> !UsesIngredient(db.recipes.rows[rid], id)) && InSomePantry(db, id)
    ensures r.1.status == 404 || r.1.status == 400 || r.1.status == 500 || r.1.status == 204
    ensures r.1.status != 204 ==> r.0 == db
    ensures r.1.status == 204 ==> r.0 == db.(ingredients := Table(db.ingredients.rows - {id}, db.ingredients.next))
  {
    if id !in db.ingredients.rows then (db, Fail(404, "Not Found"))
    else if First(db.recipes, (row: RecipeRow) => UsesIngredient(row, id)).Some? then
      (db, Fail(400, "Cannot delete ingredient that is used in recipes"))
    else if InSomePantry(db, id) then (db, Fail(500, "Internal Server Error"))
    else
      (db.(ingredients := Table(db.ingredients.rows - {id}, db.ingredients.next)), Reply(204, None, ""))
  }

  /** A successful delete leaves no pantry row pointing at the deleted ingredient. */
  lemma DeleteLeavesNoDanglingPantry(db: Db, id: int)
    requires ValidDb(db)
    requires DeleteIngredient(db, id).1.status == 204
    ensures forall key :: key in DeleteIngredient(db, id).0.pantry ==> key.1 != id
  {
  }

  /** `GET /ingredients/categories`: every non-empty category once. */
  function IngredientCategories(db: Db): (r: seq<string>)
    requires ValidDb(db)
    ensures Seqs.NoDups(r)
    ensures forall c :: c in r <==> c != "" && exists id :: id in db.ingredients.rows && db.ingredients.rows[id].category == Some(c)
  {
    DistinctValues(db.ingredients, (row: IngredientRow) => row.category)
  }

  /** `GET /ingredients/search?q=`: an empty query is refused; otherwise the rows whose name contains it. */
  function SearchIngredients(db: Db, q: string): (r: (int, seq<int>))
    requires ValidDb(db)
    ensures r.0 == 400 <==> q == ""
    ensures r.0 == 400 ==> r.1 == []
    ensures r.0 != 400 ==> r.0 == 200 && forall id :: id in r.1 <==> id in db.ingredients.rows && Contains(db.ingredients.rows[id].name, q)
  {
    if q == "" then (400, [])
    else (200, Where(db.ingredients, (row: IngredientRow) => Contains(row.name, q)))
  }
}
