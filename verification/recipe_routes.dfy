/**
 * The `/recipes` routes: listing, create and update with step renumbering and ingredient
 * resolution, delete, categories and search.
 */
module RecipeRoutes {
  import opened Wrappers
  import opened Text
  import opened RecordStore
  import Seqs

  /** The page-size cap of the listing and of search. */
  const MaxPerPage: int := 50

  /** The page size when the query does not give one. */
  const DefaultPerPage: int := 10

  /** One submitted step. Its own `step_number`, if the client sent one, plays no part. */
  datatype StepInput = StepInput(clientNumber: Option<int>, description: Option<string>, imageUrl: Option<string>)

  /** One submitted ingredient line: how it names the ingredient, and the link's amount and note. */
  datatype LinkInput = LinkInput(ref: IngredientRef, amount: Option<real>, note: Option<string>)

  /**
   * The body of a create or update request. `None` is a key the body does not carry; for the
   * nullable columns `Some(v)` carries the new (possibly null) value. `steps` and `ingredients`
   * are `Some` only when the key is present and holds a list.
   */
  datatype RecipePatch = RecipePatch(
    name: Option<string>,
    description: Option<Option<string>>,
    difficulty: Option<Option<string>>,
    cookingTime: Option<Option<int>>,
    servings: Option<Option<int>>,
    category: Option<Option<string>>,
    imageUrl: Option<Option<string>>,
    steps: Option<seq<StepInput>>,
    ingredients: Option<seq<LinkInput>>)

  /** The fields a create request must carry, in the order they are checked. */
  const RequiredFields: seq<string> := ["name", "description", "difficulty", "cooking_time", "servings", "category"]

  /** The first required field the body lacks. */
  function MissingField(p: RecipePatch): (r: Option<string>)
    ensures r.None? <==> p.name.Some? && p.description.Some? && p.difficulty.Some? && p.cookingTime.Some? && p.servings.Some? && p.category.Some?
    ensures r.Some? ==> r.value in RequiredFields
    ensures p.name.None? ==> r == Some("name")
  {
    if p.name.None? then Some("name")
    else if p.description.None? then Some("description")
    else if p.difficulty.None? then Some("difficulty")
    else if p.cookingTime.None? then Some("cooking_time")
    else if p.servings.None? then Some("servings")
    else if p.category.None? then Some("category")
    else None
  }

  /** The stored steps are the submitted ones in order, numbered from 1 by position. */
  predicate NumberedFrom(steps: seq<StepRow>, inputs: seq<StepInput>) {
    |steps| == |inputs| &&
    forall i :: 0 <= i < |steps| ==>
      steps[i].number == i + 1 && steps[i].description == inputs[i].description.GetOr("") &&
      steps[i].imageUrl == inputs[i].imageUrl
  }

  /** The step rows a create or update stores. */
  function Renumber(inputs: seq<StepInput>): (r: seq<StepRow>)
    ensures NumberedFrom(r, inputs)
    decreases |inputs|
  {
    if inputs == [] then []
    else
      var init := Renumber(inputs[..|inputs| - 1]);
      var last := inputs[|inputs| - 1];
      init + [StepRow(|inputs|, last.description.GetOr(""), last.imageUrl)]
  }

  /** The number a client puts on a step never reaches the store. */
  lemma ClientNumbersIgnored(a: seq<StepInput>, b: seq<StepInput>)
    requires |a| == |b|
    requires forall i :: 0 <= i < |a| ==> a[i].description == b[i].description && a[i].imageUrl == b[i].imageUrl
    ensures Renumber(a) == Renumber(b)
  {
    var ra, rb := Renumber(a), Renumber(b);
    assert |ra| == |rb|;
    forall i | 0 <= i < |ra| ensures ra[i] == rb[i] {
    }
  }

  /**
   * Line `i` of `inputs` resolved against `t` as `links[i]`, linking an ingredient stored in `u`:
   * a line with a name or a known id links something, with its amount (0 by default) and note;
   * a known id links that id; a named line whose id is unknown links an ingredient of that name;
   * a line with neither links nothing.
   */
  predicate LinksResolved(t: Table<IngredientRow>, inputs: seq<LinkInput>, u: Table<IngredientRow>, links: seq<Option<LinkRow>>) {
    |links| == |inputs| &&
    (forall i :: 0 <= i < |inputs| && links[i].Some? ==>
      links[i].value.ingredientId in u.rows &&
      links[i].value.amount == inputs[i].amount.GetOr(0.0) && links[i].value.note == inputs[i].note) &&
    (forall i :: 0 <= i < |inputs| && inputs[i].ref.name.Some? ==> links[i].Some?) &&
    (forall i :: 0 <= i < |inputs| && IdHits(t, inputs[i].ref) ==> links[i].Some? && links[i].value.ingredientId == inputs[i].ref.id.value) &&
    (forall i :: 0 <= i < |inputs| && inputs[i].ref.id.None? && inputs[i].ref.name.None? ==> links[i].None?) &&
    (forall i :: 0 <= i < |inputs| && !IdHits(u, inputs[i].ref) && inputs[i].ref.name.Some? ==>
      links[i].Some? && links[i].value.ingredientId in u.rows &&
      u.rows[links[i].value.ingredientId].name == inputs[i].ref.name.value)
  }

  /**
   * Each ingredient line resolved in order (id, then name, then a new ingredient); a line that
   * names nothing resolvable gives `None` and is skipped. `amount` defaults to 0.
   */
  function ResolveLinks(t: Table<IngredientRow>, inputs: seq<LinkInput>): (r: (Table<IngredientRow>, seq<Option<LinkRow>>))
    requires Valid(t)
    ensures Valid(r.0) && Extends(t, r.0)
    ensures LinksResolved(t, inputs, r.0, r.1)
    decreases |inputs|
  {
    if inputs == [] then (t, [])
    else
      var first := ResolveIngredient(t, inputs[0].ref);
      var more := ResolveLinks(first.0, inputs[1..]);
      var link := if first.1.Some? then Some(LinkRow(first.1.value, inputs[0].amount.GetOr(0.0), inputs[0].note)) else None;
      ExtendsTrans(t, first.0, more.0);
      LinksResolvedStep(t, inputs, first.0, first.1, more.0, more.1, link);
      (more.0, [link] + more.1)
  }

  /** The first line's outcome in front of the other lines' outcomes resolves every line. */
  lemma LinksResolvedStep(t: Table<IngredientRow>, inputs: seq<LinkInput>, t1: Table<IngredientRow>, id: Option<int>,
                          t2: Table<IngredientRow>, rest: seq<Option<LinkRow>>, link: Option<LinkRow>)
    requires |inputs| > 0 && Extends(t, t1) && Extends(t1, t2)
    requires id.Some? ==> id.value in t1.rows
    requires IdHits(t, inputs[0].ref) ==> id == inputs[0].ref.id
    requires inputs[0].ref.name.Some? ==> id.Some?
    requires inputs[0].ref.id.None? && inputs[0].ref.name.None? ==> id.None?
    requires !IdHits(t, inputs[0].ref) && inputs[0].ref.name.Some? ==>
      id.Some? && id.value in t1.rows && t1.rows[id.value].name == inputs[0].ref.name.value
    requires link == if id.Some? then Some(LinkRow(id.value, inputs[0].amount.GetOr(0.0), inputs[0].note)) else None
    requires LinksResolved(t1, inputs[1..], t2, rest)
    ensures LinksResolved(t, inputs, t2, [link] + rest)
  {
    var links := [link] + rest;
    if IdHits(t, inputs[0].ref) {
      ExtendsHas(t, t2, inputs[0].ref.id.value);
    } else if inputs[0].ref.name.Some? {
      ExtendsHas(t1, t2, id.value);
    }
    forall i | 1 <= i < |inputs|
      ensures inputs[i] == inputs[1..][i - 1] && links[i] == rest[i - 1]
      ensures IdHits(t, inputs[i].ref) ==> IdHits(t1, inputs[1..][i - 1].ref)
    {
      assert inputs[i] == inputs[1..][i - 1];
      if IdHits(t, inputs[i].ref) {
        ExtendsHas(t, t1, inputs[i].ref.id.value);
      }
    }
  }

  /** The resolved links, skipped lines dropped, order kept. */
  function Somes<T>(xs: seq<Option<T>>): (r: seq<T>)
    ensures |r| <= |xs|
    ensures (forall i :: 0 <= i < |xs| ==> xs[i].Some?) ==> |r| == |xs| && forall i :: 0 <= i < |r| ==> r[i] == xs[i].value
    ensures forall k :: 0 <= k < |r| ==> exists i :: 0 <= i < |xs| && xs[i] == Some(r[k])
  {
    if xs == [] then []
    else
      var rest := Somes(xs[1..]);
      assert forall i :: 1 <= i < |xs| ==> xs[i] == xs[1..][i - 1];
      if xs[0].Some? then [xs[0].value] + rest else rest
  }

  /** A recipe links each ingredient at most once (the link table's primary key). */
  predicate DistinctIngredients(links: seq<LinkRow>) {
    forall a, b :: 0 <= a < b < |links| ==> links[a].ingredientId != links[b].ingredientId
  }

  const DuplicateLinkError: string := "duplicate key in recipe_ingredients"

  /** `POST /recipes`. A body naming one ingredient twice violates the link key; nothing is stored. */
  function CreateRecipe(db: Db, p: RecipePatch): (r: (Db, Reply))
    requires ValidDb(db)
    ensures ValidDb(r.0)
    ensures r.1.status == 400 <==> MissingField(p).Some?
    ensures r.1.status == 500 <==>
      MissingField(p).None? && !DistinctIngredients(Somes(ResolveLinks(db.ingredients, p.ingredients.GetOr([])).1))
    ensures r.1.status == 400 || r.1.status == 500 || r.1.status == 201
    ensures r.1.status != 201 ==> r.0 == db
    ensures r.1.status == 201 ==>
      r.1.id.Some? && r.1.id.value !in db.recipes.rows && r.1.id.value in r.0.recipes.rows &&
      Extends(db.recipes, r.0.recipes) && Extends(db.ingredients, r.0.ingredients) &&
      r.0 == db.(recipes := r.0.recipes, ingredients := r.0.ingredients)
    ensures r.1.status == 201 ==>
      var row := r.0.recipes.rows[r.1.id.value];
      row.name == p.name.value && row.description == p.description.value && row.difficulty == p.difficulty.value &&
      row.cookingTime == p.cookingTime.value && row.servings == p.servings.value && row.category == p.category.value &&
      row.imageUrl == p.imageUrl.GetOr(None) &&
      NumberedFrom(row.steps, p.steps.GetOr([])) &&
      row.links == Somes(ResolveLinks(db.ingredients, p.ingredients.GetOr([])).1) &&
      r.0.ingredients == ResolveLinks(db.ingredients, p.ingredients.GetOr([])).0 &&
      DistinctIngredients(row.links) &&
      forall k :: 0 <= k < |row.links| ==> row.links[k].ingredientId in r.0.ingredients.rows
  {
    match MissingField(p)
    case Some(f) => (db, Fail(400, "Missing required field: " + f))
    case None =>
      var (t, resolved) := ResolveLinks(db.ingredients, p.ingredients.GetOr([]));
      var links := Somes(resolved);
      if !DistinctIngredients(links) then (db, Fail(500, DuplicateLinkError))
      else
        var row := RecipeRow(p.name.value, p.description.value, p.difficulty.value, p.cookingTime.value,
                             p.servings.value, p.category.value, p.imageUrl.GetOr(None), Renumber(p.steps.GetOr([])), links);
        var (recipes, id) := Insert(db.recipes, row);
        (db.(recipes := recipes, ingredients := t), Ok(201, id))
  }

  /** `PUT /recipes/<id>`: keys present replace their columns; steps and links are replaced only when a list is sent. */
  function UpdateRecipe(db: Db, id: int, p: RecipePatch): (r: (Db, Reply))
    requires ValidDb(db)
    ensures ValidDb(r.0)
    ensures r.1.status == 404 <==> id !in db.recipes.rows
    ensures r.1.status == 404 || r.1.status == 500 || r.1.status == 200
    ensures r.1.status != 200 ==> r.0 == db
    ensures r.1.status == 500 <==>
      id in db.recipes.rows && p.ingredients.Some? &&
      !DistinctIngredients(Somes(ResolveLinks(db.ingredients, p.ingredients.value).1))
    ensures r.1.status == 200 ==>
      id in r.0.recipes.rows && r.0.recipes.next == db.recipes.next &&
      (forall other :: other != id ==> (other in r.0.recipes.rows <==> other in db.recipes.rows)) &&
      (forall other :: other in db.recipes.rows && other != id ==> r.0.recipes.rows[other] == db.recipes.rows[other]) &&
      Extends(db.ingredients, r.0.ingredients) &&
      (p.ingredients.None? ==> r.0.ingredients == db.ingredients) &&
      r.0 == db.(recipes := r.0.recipes, ingredients := r.0.ingredients)
    ensures r.1.status == 200 ==>
      var before := db.recipes.rows[id];
      var after := r.0.recipes.rows[id];
      after.name == p.name.GetOr(before.name) && after.description == p.description.GetOr(before.description) &&
      after.difficulty == p.difficulty.GetOr(before.difficulty) && after.cookingTime == p.cookingTime.GetOr(before.cookingTime) &&
      after.servings == p.servings.GetOr(before.servings) && after.category == p.category.GetOr(before.category) &&
      after.imageUrl == p.imageUrl.GetOr(before.imageUrl) &&
      (p.steps.None? ==> after.steps == before.steps) &&
      (p.steps.Some? ==> NumberedFrom(after.steps, p.steps.value)) &&
      (p.ingredients.None? ==> after.links == before.links) &&
      (p.ingredients.Some? ==> DistinctIngredients(after.links)) &&
      (p.ingredients.Some? ==>
        after.links == Somes(ResolveLinks(db.ingredients, p.ingredients.value).1) &&
        r.0.ingredients == ResolveLinks(db.ingredients, p.ingredients.value).0)
  {
    if id !in db.recipes.rows then (db, Fail(404, "Not Found"))
    else
      var before := db.recipes.rows[id];
      var (t, resolved) := ResolveLinks(db.ingredients, p.ingredients.GetOr([]));
      var links := if p.ingredients.Some? then Somes(resolved) else before.links;
      var t' := if p.ingredients.Some? then t else db.ingredients;
      if p.ingredients.Some? && !DistinctIngredients(links) then (db, Fail(500, DuplicateLinkError))
      else
        var after := RecipeRow(p.name.GetOr(before.name), p.description.GetOr(before.description),
                               p.difficulty.GetOr(before.difficulty), p.cookingTime.GetOr(before.cookingTime),
                               p.servings.GetOr(before.servings), p.category.GetOr(before.category),
                               p.imageUrl.GetOr(before.imageUrl),
                               if p.steps.Some? then Renumber(p.steps.value) else before.steps, links);
        (db.(recipes := Table(db.recipes.rows[id := after], db.recipes.next), ingredients := t'), Ok(200, id))
  }

  /** `DELETE /recipes/<id>`: the recipe goes, and its steps and links with it. */
  function DeleteRecipe(db: Db, id: int): (r: (Db, Reply))
    requires ValidDb(db)
    ensures ValidDb(r.0)
    ensures r.1.status == 404 <==> id !in db.recipes.rows
    ensures r.1.status == 404 ==> r.0 == db
    ensures r.1.status != 404 ==> r.1.status == 204 && id !in r.0.recipes.rows
    ensures r.1.status != 404 ==> forall other :: other != id ==> (other in r.0.recipes.rows <==> other in db.recipes.rows)
    ensures r.1.status != 404 ==> forall other :: other in r.0.recipes.rows ==> r.0.recipes.rows[other] == db.recipes.rows[other]
    ensures r.1.status != 404 ==> r.0 == db.(recipes := r.0.recipes)
  {
    if id !in db.recipes.rows then (db, Fail(404, "Not Found"))
    else (db.(recipes := Table(db.recipes.rows - {id}, db.recipes.next)), Reply(204, None, ""))
  }

  /** The listing's filters: a falsy category or difficulty filters nothing. */
  predicate ListFilter(row: RecipeRow, category: Option<string>, difficulty: Option<string>) {
    (category.None? || category.value == "" || row.category == category) &&
    (difficulty.None? || difficulty.value == "" || row.difficulty == difficulty)
  }

  /**
   * The listing before pagination: the rows passing both filters, newest first. Rows are
   * stamped with the clock when inserted and ids grow with every insert, so newest first is
   * descending id order.
   */
  function RecipeListing(db: Db, category: Option<string>, difficulty: Option<string>): (ids: seq<int>)
    requires ValidDb(db)
    ensures forall id :: id in ids <==> id in db.recipes.rows && ListFilter(db.recipes.rows[id], category, difficulty)
    ensures forall i, j :: 0 <= i < j < |ids| ==> ids[i] > ids[j]
  {
    var ascending := Where(db.recipes, (row: RecipeRow) => ListFilter(row, category, difficulty));
    var r := Seqs.Reverse(ascending);
    assert forall id :: id in r <==> id in ascending by {
      forall id ensures id in r <==> id in ascending {
        if id in ascending {
          var k :| 0 <= k < |ascending| && ascending[k] == id;
          assert r[|ascending| - 1 - k] == id;
        }
      }
    }
    r
  }

  /** `GET /recipes`: the requested page of the listing; `None` is the 404 for a page that does not exist. */
  function ListRecipes(db: Db, category: Option<string>, difficulty: Option<string>,
                       page: Option<int>, perPage: Option<int>): (r: Option<Page>)
    requires ValidDb(db)
    ensures r == ListPage(RecipeListing(db, category, difficulty), page, perPage, DefaultPerPage, MaxPerPage)
    ensures r.Some? ==> r.value.total == |RecipeListing(db, category, difficulty)| && |r.value.items| <= MaxPerPage
    ensures r.Some? ==> forall k :: 0 <= k < |r.value.items| ==>
      r.value.items[k] in db.recipes.rows && ListFilter(db.recipes.rows[r.value.items[k]], category, difficulty)
  {
    var ids := RecipeListing(db, category, difficulty);
    var r := ListPage(ids, page, perPage, DefaultPerPage, MaxPerPage);
    PageMembers(r, ids);
    r
  }

  /** The first page starts with the newest recipe that passes the filters. */
  lemma FirstPageStartsNewest(db: Db, category: Option<string>, difficulty: Option<string>, perPage: Option<int>)
    requires ValidDb(db) && perPage.GetOr(DefaultPerPage) >= 1
    requires exists id :: id in db.recipes.rows && ListFilter(db.recipes.rows[id], category, difficulty)
    ensures var r := ListRecipes(db, category, difficulty, None, perPage);
      r.Some? && |r.value.items| > 0 &&
      forall id :: id in db.recipes.rows && ListFilter(db.recipes.rows[id], category, difficulty) ==> id <= r.value.items[0]
  {
    var ids := RecipeListing(db, category, difficulty);
    var id0 :| id0 in db.recipes.rows && ListFilter(db.recipes.rows[id0], category, difficulty);
    assert id0 in ids;
    var r := Paginate(ids, 1, PerPage(perPage.GetOr(DefaultPerPage), MaxPerPage));
    assert r.value.items[0] == ids[0];
    forall id | id in db.recipes.rows && ListFilter(db.recipes.rows[id], category, difficulty)
      ensures id <= ids[0]
    {
      var k :| 0 <= k < |ids| && ids[k] == id;
    }
  }

  /** `GET /recipes/categories`: every non-empty category once. */
  function RecipeCategories(db: Db): (r: seq<string>)
    requires ValidDb(db)
    ensures Seqs.NoDups(r)
    ensures forall c :: c in r <==> c != "" && exists id :: id in db.recipes.rows && db.recipes.rows[id].category == Some(c)
  {
    DistinctValues(db.recipes, (row: RecipeRow) => row.category)
  }

  /** `name LIKE %q% OR description LIKE %q%`; a null description matches nothing. */
  predicate MatchesSearch(row: RecipeRow, q: string) {
    Contains(row.name, q) || (row.description.Some? && Contains(row.description.value, q))
  }

  /** The rows `search` reads before pagination: the matching rows, in storage (id) order. */
  function SearchListing(db: Db, q: string): (ids: seq<int>)
    requires ValidDb(db)
    ensures forall id :: id in ids <==> id in db.recipes.rows && MatchesSearch(db.recipes.rows[id], q)
    ensures forall i, j :: 0 <= i < j < |ids| ==> ids[i] < ids[j]
  {
    Where(db.recipes, (row: RecipeRow) => MatchesSearch(row, q))
  }

  /**
   * `GET /recipes/search`: an empty query is a 400; otherwise the requested page of the matching
   * rows, or a 404 for a page that does not exist.
   */
  function SearchRecipes(db: Db, q: string, page: Option<int>, perPage: Option<int>): (r: (int, Option<Page>))
    requires ValidDb(db)
    ensures r.0 == 400 <==> q == ""
    ensures r.0 == 400 ==> r.1.None?
    ensures q != "" ==> r.1 == ListPage(SearchListing(db, q), page, perPage, DefaultPerPage, MaxPerPage)
    ensures q != "" ==> (r.0 == 404 <==> r.1.None?) && (r.0 == 200 <==> r.1.Some?)
    ensures r.1.Some? ==> forall k :: 0 <= k < |r.1.value.items| ==>
      r.1.value.items[k] in db.recipes.rows && MatchesSearch(db.recipes.rows[r.1.value.items[k]], q)
  {
    if q == "" then (400, None)
    else
      var ids := SearchListing(db, q);
      var r := ListPage(ids, page, perPage, DefaultPerPage, MaxPerPage);
      PageMembers(r, ids);
      if r.None? then (404, None) else (200, r)
  }
}
