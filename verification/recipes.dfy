/**
 * The recipe object graph the query service reads: a recipe with its ordered steps and its
 * ingredient links, each link resolving (or failing to resolve) to an ingredient record.
 * Nullable columns are `Option`s.
 */
module Recipes {
  import opened Wrappers

  datatype Ingredient = Ingredient(
    id: int,
    name: string,
    unit: Option<string>,
    category: Option<string>,
    imageUrl: Option<string>)

  /** A recipe-ingredient association; `ingredient` is `None` when the referenced row is missing. */
  datatype Link = Link(ingredient: Option<Ingredient>, amount: real, note: Option<string>)

  datatype Step = Step(number: int, description: string, imageUrl: Option<string>)

  datatype Recipe = Recipe(
    id: int,
    name: string,
    description: Option<string>,
    difficulty: Option<string>,
    cookingTime: Option<int>,
    servings: Option<int>,
    category: Option<string>,
    imageUrl: Option<string>,
    steps: seq<Step>,
    links: seq<Link>)

  /** `recipe.description or ''`. */
  function DescriptionText(r: Recipe): string {
    r.description.GetOr("")
  }

  /** `ri.ingredient.name if ri.ingredient else ''`: the name the keyword filters read for a link. */
  function LinkName(l: Link): string {
    if l.ingredient.Some? then l.ingredient.value.name else ""
  }

  /** Python truthiness of an optional string: present and non-empty. */
  predicate Truthy(s: Option<string>) {
    s.Some? && s.value != ""
  }

  /** Python truthiness of an optional integer: present and non-zero. */
  predicate TruthyInt(n: Option<int>) {
    n.Some? && n.value != 0
  }
}
