/**
 * The object graph the query service reads, loaded from the store: a recipe row with its links
 * resolved against the ingredient table (a link whose ingredient row is gone resolves to nothing).
 */
module StoreView {
  import opened Wrappers
  import opened Recipes
  import opened RecordStore

  /** The ingredient object of a stored ingredient row. */
  function AsIngredient(id: int, row: IngredientRow): (r: Ingredient)
    ensures r.id == id && r.name == row.name && r.unit == row.unit && r.category == row.category && r.imageUrl == row.imageUrl
  {
    Ingredient(id, row.name, row.unit, row.category, row.imageUrl)
  }

  /** The links of a row, each resolved through the ingredient table. */
  function AsLinks(t: Table<IngredientRow>, links: seq<LinkRow>): (r: seq<Link>)
    ensures |r| == |links|
    ensures forall i :: 0 <= i < |r| ==>
      r[i].amount == links[i].amount && r[i].note == links[i].note &&
      (r[i].ingredient.Some? <==> links[i].ingredientId in t.rows) &&
      (links[i].ingredientId in t.rows ==> r[i].ingredient.value.id == links[i].ingredientId &&
                                            LinkName(r[i]) == t.rows[links[i].ingredientId].name)
  {
    if links == [] then []
    else
      var l := links[0];
      var head := Link(if l.ingredientId in t.rows then Some(AsIngredient(l.ingredientId, t.rows[l.ingredientId])) else None,
                       l.amount, l.note);
      [head] + AsLinks(t, links[1..])
  }

  /** The steps of a row as step objects. */
  function AsSteps(steps: seq<StepRow>): (r: seq<Step>)
    ensures |r| == |steps|
    ensures forall i :: 0 <= i < |r| ==>
      r[i].number == steps[i].number && r[i].description == steps[i].description && r[i].imageUrl == steps[i].imageUrl
  {
    if steps == [] then []
    else [Step(steps[0].number, steps[0].description, steps[0].imageUrl)] + AsSteps(steps[1..])
  }

  /** The recipe object of the row stored under `id`. */
  function AsRecipe(t: Table<IngredientRow>, id: int, row: RecipeRow): (r: Recipe)
    ensures r.id == id && r.name == row.name && r.description == row.description && r.category == row.category
    ensures r.difficulty == row.difficulty && r.cookingTime == row.cookingTime && r.servings == row.servings
    ensures r.imageUrl == row.imageUrl && r.steps == AsSteps(row.steps) && r.links == AsLinks(t, row.links)
  {
    Recipe(id, row.name, row.description, row.difficulty, row.cookingTime, row.servings, row.category,
           row.imageUrl, AsSteps(row.steps), AsLinks(t, row.links))
  }
}
