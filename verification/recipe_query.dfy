/**
 * The query operations of the recipe query service: the AI-facing record a recipe is formatted
 * into, search by criteria, lookup by available ingredients and lookup by nutrition goals.
 * The record store's rows are a sequence in storage order; a query without `ORDER BY` returns
 * matches in that order.
 */
module RecipeQuery {
  import opened Wrappers
  import opened Text
  import opened Recipes
  import opened Keywords
  import opened RecipeFilter
  import Seqs

  // ---------------------------------------------------------------- the AI-facing record

  datatype AiIngredient = AiIngredient(name: string, amount: real, unit: Option<string>, note: string)

  datatype AiStep = AiStep(number: int, description: string)

  datatype AiRecipe = AiRecipe(
    id: int,
    name: string,
    description: Option<string>,
    difficulty: Option<string>,
    cookingTime: Option<int>,
    servings: Option<int>,
    category: Option<string>,
    ingredients: seq<AiIngredient>,
    steps: seq<AiStep>,
    ingredientSummary: seq<string>)

  /** The name shown for a link whose ingredient row is missing. */
  const UnknownIngredient: string := "未知食材"

  /** One ingredient entry: a missing ingredient shows the placeholder name and an empty unit. */
  function FormatIngredient(l: Link): AiIngredient {
    if l.ingredient.Some? then
      AiIngredient(l.ingredient.value.name, l.amount, l.ingredient.value.unit, l.note.GetOr(""))
    else
      AiIngredient(UnknownIngredient, l.amount, Some(""), l.note.GetOr(""))
  }

  function StepNumber(s: AiStep): int {
    s.number
  }

  /** The steps as stored, reduced to number and description. */
  function StepEntries(steps: seq<Step>): (r: seq<AiStep>)
    ensures |r| == |steps|
    ensures forall i :: 0 <= i < |steps| ==> r[i] == AiStep(steps[i].number, steps[i].description)
  {
    if |steps| == 0 then [] else [AiStep(steps[0].number, steps[0].description)] + StepEntries(steps[1..])
  }

  /**
   * `_format_recipe_for_ai`: every link becomes one ingredient entry, in link order, and the
   * summary lists the same names; the steps are the stored steps ordered by step number.
   */
  function FormatForAi(r: Recipe): (a: AiRecipe)
    ensures a.id == r.id && a.name == r.name && a.description == r.description
    ensures a.difficulty == r.difficulty && a.cookingTime == r.cookingTime
    ensures a.servings == r.servings && a.category == r.category
    ensures |a.ingredients| == |r.links| == |a.ingredientSummary|
    ensures forall i :: 0 <= i < |r.links| ==>
      a.ingredientSummary[i] == a.ingredients[i].name &&
      a.ingredients[i].amount == r.links[i].amount &&
      (a.ingredients[i].name == UnknownIngredient <==> r.links[i].ingredient.None? || LinkName(r.links[i]) == UnknownIngredient)
    ensures forall i :: 0 <= i < |r.links| ==>
      a.ingredients[i] == (if r.links[i].ingredient.Some? then
        AiIngredient(r.links[i].ingredient.value.name, r.links[i].amount, r.links[i].ingredient.value.unit, r.links[i].note.GetOr(""))
      else AiIngredient(UnknownIngredient, r.links[i].amount, Some(""), r.links[i].note.GetOr("")))
    ensures Seqs.SortedByKey(a.steps, StepNumber)
    ensures multiset(a.steps) == multiset(StepEntries(r.steps))
  {
    var ingredients := seq(|r.links|, i requires 0 <= i < |r.links| => FormatIngredient(r.links[i]));
    AiRecipe(r.id, r.name, r.description, r.difficulty, r.cookingTime, r.servings, r.category,
             ingredients,
             Seqs.SortByKey(StepEntries(r.steps), StepNumber),
             seq(|ingredients|, i requires 0 <= i < |ingredients| => ingredients[i].name))
  }

  /** Formats a list of recipes, one record per recipe, in order. */
  function FormatAll(rs: seq<Recipe>): (out: seq<AiRecipe>)
    ensures |out| == |rs|
    ensures forall i :: 0 <= i < |rs| ==> out[i] == FormatForAi(rs[i])
  {
    seq(|rs|, i requires 0 <= i < |rs| => FormatForAi(rs[i]))
  }

  /**
   * The summary the AI sees agrees with the allergy filter: an allergy keyword inside the
   * summary name of a resolved link means the filter rejects the recipe, so no record that
   * survives the filter shows one.
   */
  lemma SummaryShowsAllergen(r: Recipe, allergies: seq<string>, i: int, a: int, j: int)
    requires 0 <= i < |r.links| && r.links[i].ingredient.Some? && KeywordIndex(allergies, a, j)
    requires Contains(FormatForAi(r).ingredientSummary[i], AllergyKeywords(allergies[a])[j])
    ensures HasAllergen(r, allergies)
  {
    assert FormatForAi(r).ingredientSummary[i] == LinkName(r.links[i]);
    assert InSomeIngredient(r, AllergyKeywords(allergies[a])[j]);
  }

  /** Formatting keeps the subsequence relation between two lists of recipes. */
  lemma {:induction false} FormatAllKeepsSubsequence(a: seq<Recipe>, b: seq<Recipe>)
    requires Seqs.IsSubsequence(a, b)
    ensures Seqs.IsSubsequence(FormatAll(a), FormatAll(b))
    decreases |b|
  {
    if |a| > 0 {
      assert FormatAll(a)[1..] == FormatAll(a[1..]);
      assert FormatAll(b)[1..] == FormatAll(b[1..]);
      if a[0] == b[0] && Seqs.IsSubsequence(a[1..], b[1..]) {
        FormatAllKeepsSubsequence(a[1..], b[1..]);
      } else {
        FormatAllKeepsSubsequence(a, b[1..]);
      }
    }
  }

  // ---------------------------------------------------------------- search by criteria

  /** The arguments of `search_recipes_by_criteria`; a `None` or empty argument is not applied. */
  datatype Criteria = Criteria(
    dietaryPreferences: seq<string>,
    allergies: seq<string>,
    cuisineType: Option<string>,
    difficulty: Option<string>,
    cookingTimeMax: Option<int>,
    category: Option<string>,
    limit: nat)

  /** SQL `col LIKE '%k%'` on a nullable column: NULL never matches. */
  predicate SqlContains(col: Option<string>, k: string) {
    col.Some? && Contains(col.value, k)
  }

  /** `name LIKE '%k%' OR description LIKE '%k%'`, true only when one side is true. */
  predicate NameOrDescriptionLike(r: Recipe, k: string) {
    Contains(r.name, k) || SqlContains(r.description, k)
  }

  /** The OR of `name LIKE '%k%'` and `description LIKE '%k%'` over the cuisine's keywords. */
  predicate MatchesCuisine(r: Recipe, ks: seq<string>) {
    exists j :: 0 <= j < |ks| && NameOrDescriptionLike(r, ks[j])
  }

  /**
   * The database half of the search: each condition applies only when its argument is truthy
   * (a cuisine with no keywords applies none), and a NULL column fails an equality or `<=`.
   */
  predicate MatchesStoreQuery(r: Recipe, c: Criteria) {
    (Truthy(c.cuisineType) && |CuisineKeywords(c.cuisineType.value)| > 0 ==>
      MatchesCuisine(r, CuisineKeywords(c.cuisineType.value))) &&
    (Truthy(c.difficulty) ==> r.difficulty == c.difficulty) &&
    (TruthyInt(c.cookingTimeMax) ==> r.cookingTime.Some? && r.cookingTime.value <= c.cookingTimeMax.value) &&
    (Truthy(c.category) ==> r.category == c.category)
  }

  /** The cuisine condition as the query builder evaluates it, keyword by keyword. */
  function CuisineScan(r: Recipe, ks: seq<string>): (b: bool)
    ensures b <==> MatchesCuisine(r, ks)
  {
    if |ks| == 0 then false
    else if NameOrDescriptionLike(r, ks[0]) then true
    else
      var rest := CuisineScan(r, ks[1..]);
      assert rest ==> MatchesCuisine(r, ks) by {
        if rest {
          var j :| 0 <= j < |ks[1..]| && NameOrDescriptionLike(r, ks[1..][j]);
          assert ks[1..][j] == ks[j + 1];
        }
      }
      rest
  }

  /** The rows the database returns: the matching rows in storage order, at most `limit` of them. */
  function StoreRows(store: seq<Recipe>, c: Criteria): (rows: seq<Recipe>)
    ensures |rows| <= c.limit
    ensures forall i :: 0 <= i < |rows| ==> rows[i] in store && MatchesStoreQuery(rows[i], c)
    ensures |rows| < c.limit ==> forall i :: 0 <= i < |store| && MatchesStoreQuery(store[i], c) ==> store[i] in rows
    ensures Seqs.IsSubsequence(rows, store)
  {
    var matched := Seqs.Filter(store, r => MatchesStoreQuery(r, c));
    Seqs.FilterIsSubsequence(store, r => MatchesStoreQuery(r, c));
    Seqs.TakeIsSubsequence(matched, c.limit);
    Seqs.SubsequenceTrans(Seqs.Take(matched, c.limit), matched, store);
    Seqs.Take(matched, c.limit)
  }

  /**
   * The recipes `search_recipes_by_criteria` formats: the rows of the limited query, then the
   * allergy filter (when allergies are given), then the dietary filter (when preferences are).
   */
  function SelectByCriteria(store: seq<Recipe>, c: Criteria): (rs: seq<Recipe>)
    ensures |rs| <= c.limit
    ensures forall i :: 0 <= i < |rs| ==>
      rs[i] in store && MatchesStoreQuery(rs[i], c) &&
      !HasAllergen(rs[i], c.allergies) && MeetsPreferences(rs[i], c.dietaryPreferences)
    ensures forall i :: 0 <= i < |StoreRows(store, c)| ==>
      var x := StoreRows(store, c)[i];
      !HasAllergen(x, c.allergies) && MeetsPreferences(x, c.dietaryPreferences) ==> x in rs
    ensures Seqs.IsSubsequence(rs, store)
  {
    var rows := StoreRows(store, c);
    var safe := if |c.allergies| > 0 then FilterByAllergies(rows, c.allergies) else rows;
    var suitable := if |c.dietaryPreferences| > 0 then FilterByDietaryPreferences(safe, c.dietaryPreferences) else safe;
    NoAllergiesKeepsAll(rows);
    Seqs.SubsequenceRefl(rows);
    Seqs.SubsequenceRefl(safe);
    Seqs.SubsequenceTrans(safe, rows, store);
    Seqs.SubsequenceTrans(suitable, safe, store);
    assert |suitable| <= |safe| <= |rows| by {
      SubsequenceLength(suitable, safe);
      SubsequenceLength(safe, rows);
    }
    suitable
  }

  /** A subsequence is never longer. */
  lemma {:induction false} SubsequenceLength<T>(a: seq<T>, b: seq<T>)
    requires Seqs.IsSubsequence(a, b)
    ensures |a| <= |b|
    decreases |b|
  {
    if |a| > 0 {
      if a[0] == b[0] && Seqs.IsSubsequence(a[1..], b[1..]) {
        SubsequenceLength(a[1..], b[1..]);
      } else {
        SubsequenceLength(a, b[1..]);
      }
    }
  }

  /** A stored recipe passes the query, the allergy filter and the dietary filter. */
  ghost predicate Qualifies(r: Recipe, c: Criteria) {
    MatchesStoreQuery(r, c) && !HasAllergen(r, c.allergies) && MeetsPreferences(r, c.dietaryPreferences)
  }

  /** `x` is the formatted record of a stored recipe that qualifies under `c`. */
  ghost predicate FormatsQualifying(store: seq<Recipe>, c: Criteria, x: AiRecipe) {
    exists j :: 0 <= j < |store| && x == FormatForAi(store[j]) && Qualifies(store[j], c)
  }

  /** `search_recipes_by_criteria`. */
  function SearchRecipesByCriteria(store: seq<Recipe>, c: Criteria): (out: seq<AiRecipe>)
    ensures |out| <= c.limit
    ensures forall i :: 0 <= i < |out| ==> FormatsQualifying(store, c, out[i])
    ensures forall i :: 0 <= i < |StoreRows(store, c)| ==>
      var x := StoreRows(store, c)[i];
      !HasAllergen(x, c.allergies) && MeetsPreferences(x, c.dietaryPreferences) ==> FormatForAi(x) in out
    ensures Seqs.IsSubsequence(out, FormatAll(store))
  {
    var rs := SelectByCriteria(store, c);
    var out := FormatAll(rs);
    FormattedFromStore(store, c, rs, out);
    FormatAllKeepsSubsequence(rs, store);
    FormatAllMembers(rs);
    out
  }

  /** The record of every recipe of the list is among the formatted records. */
  lemma FormatAllMembers(rs: seq<Recipe>)
    ensures forall x :: x in rs ==> FormatForAi(x) in FormatAll(rs)
  {
    forall x | x in rs ensures FormatForAi(x) in FormatAll(rs) {
      var k :| 0 <= k < |rs| && rs[k] == x;
      assert FormatAll(rs)[k] == FormatForAi(x);
    }
  }

  /** Formatted rows that each qualify and come from the store are formattings of qualifying store rows. */
  lemma FormattedFromStore(store: seq<Recipe>, c: Criteria, rs: seq<Recipe>, shown: seq<AiRecipe>)
    requires forall i :: 0 <= i < |rs| ==> rs[i] in store && Qualifies(rs[i], c)
    requires |shown| == |rs| && forall i :: 0 <= i < |rs| ==> shown[i] == FormatForAi(rs[i])
    ensures forall i :: 0 <= i < |shown| ==> FormatsQualifying(store, c, shown[i])
  {
    forall i | 0 <= i < |shown| ensures FormatsQualifying(store, c, shown[i]) {
      assert rs[i] in store;
      var j :| 0 <= j < |store| && store[j] == rs[i];
      assert shown[i] == FormatForAi(store[j]) && Qualifies(store[j], c);
    }
  }

  function PlainRecipe(id: int, name: string): Recipe {
    Recipe(id, name, None, None, None, None, None, None, [], [])
  }

  /**
   * The limit is applied in the database, before the allergy and dietary filters, so a search
   * can return fewer recipes than the limit although enough suitable recipes are stored: here
   * the one row fetched contains peanuts and the safe second recipe is never looked at.
   */
  lemma LimitAppliesBeforeAllergyFilter()
    ensures var store := [PlainRecipe(1, "花生酥"), PlainRecipe(2, "清蒸鱼")];
      var c := Criteria([], ["nuts"], None, None, None, None, 1);
      MatchesStoreQuery(store[1], c) && !HasAllergen(store[1], c.allergies) &&
      SearchRecipesByCriteria(store, c) == []
  {
    var store := [PlainRecipe(1, "花生酥"), PlainRecipe(2, "清蒸鱼")];
    var c := Criteria([], ["nuts"], None, None, None, None, 1);
    Seqs.FilterKeepsAll(store, r => MatchesStoreQuery(r, c));
    assert StoreRows(store, c) == [store[0]];
    PastryHasNuts();
    SteamedFishNutFree();
  }

  /** The peanut pastry of the example above mentions a nut keyword. */
  lemma PastryHasNuts()
    ensures HasAllergen(PlainRecipe(1, "花生酥"), ["nuts"])
  {
    var r := PlainRecipe(1, "花生酥");
    assert AllergyKeywords("nuts")[0] == "花生";
    assert OccursAt(r.name, "花生", 0);
    assert KeywordIndex(["nuts"], 0, 0);
  }

  /** The steamed fish of the example above mentions no nut keyword. */
  lemma SteamedFishNutFree()
    ensures !HasAllergen(PlainRecipe(2, "清蒸鱼"), ["nuts"])
  {
    var r := PlainRecipe(2, "清蒸鱼");
    var allergies := ["nuts"];
    var nuts := AllergyKeywords("nuts");
    forall t, j | KeywordIndex(allergies, t, j)
      ensures !Mentions(r, nuts[j])
    {
      assert allergies[t] == "nuts";
      AbsentFirstChar(r.name, nuts[j]);
      AbsentFirstChar("", nuts[j]);
    }
  }

  // ---------------------------------------------------------------- by available ingredients

  /** Some link resolves to an ingredient whose name is one of `names` (SQL `IN`, exact match). */
  predicate UsesAnyOf(r: Recipe, names: seq<string>) {
    exists i :: 0 <= i < |r.links| && r.links[i].ingredient.Some? && r.links[i].ingredient.value.name in names
  }

  /** The rows the ingredient query fetches: stored recipes using an available ingredient, at most `limit`. */
  function IngredientMatchRows(store: seq<Recipe>, available: seq<string>, limit: nat): (rows: seq<Recipe>)
    ensures |available| == 0 ==> rows == []
    ensures |rows| <= limit
    ensures forall i :: 0 <= i < |rows| ==> rows[i] in store && UsesAnyOf(rows[i], available)
    ensures |rows| < limit ==> forall i :: 0 <= i < |store| && UsesAnyOf(store[i], available) ==> store[i] in rows
    ensures Seqs.IsSubsequence(rows, store)
  {
    if |available| == 0 then []
    else
      var matched := Seqs.Filter(store, r => UsesAnyOf(r, available));
      Seqs.FilterIsSubsequence(store, r => UsesAnyOf(r, available));
      Seqs.TakeIsSubsequence(matched, limit);
      Seqs.SubsequenceTrans(Seqs.Take(matched, limit), matched, store);
      Seqs.Take(matched, limit)
  }

  /** `x` is the formatted record of a stored recipe that uses an available ingredient. */
  ghost predicate FormatsUsing(store: seq<Recipe>, available: seq<string>, x: AiRecipe) {
    exists j :: 0 <= j < |store| && x == FormatForAi(store[j]) && UsesAnyOf(store[j], available)
  }

  /**
   * `get_recipes_by_ingredients`: the formatted records of at most `limit` stored recipes that
   * use an available ingredient, in storage order and each once.
   */
  function RecipesByIngredients(store: seq<Recipe>, available: seq<string>, limit: nat): (out: seq<AiRecipe>)
    ensures |available| == 0 ==> out == []
    ensures |out| <= limit
    ensures forall i :: 0 <= i < |out| ==> FormatsUsing(store, available, out[i])
    ensures |out| < limit ==> forall i :: 0 <= i < |store| && UsesAnyOf(store[i], available) ==> FormatForAi(store[i]) in out
    ensures Seqs.IsSubsequence(out, FormatAll(store))
  {
    var rows := IngredientMatchRows(store, available, limit);
    var out := FormatAll(rows);
    forall i | 0 <= i < |out| ensures FormatsUsing(store, available, out[i]) {
      var j :| 0 <= j < |store| && store[j] == rows[i];
      assert out[i] == FormatForAi(store[j]);
    }
    FormatAllKeepsSubsequence(rows, store);
    FormatAllMembers(rows);
    out
  }

  /**
   * Offering more ingredients never loses a recipe: while the limit cuts nothing off, every
   * record recommended for `a` is still recommended for `a + b`.
   */
  lemma MoreIngredientsFindMore(store: seq<Recipe>, a: seq<string>, b: seq<string>, limit: nat)
    requires |store| < limit
    ensures forall x :: x in RecipesByIngredients(store, a, limit) ==> x in RecipesByIngredients(store, a + b, limit)
  {
    var wide := RecipesByIngredients(store, a + b, limit);
    SubsequenceLength(wide, FormatAll(store));
    forall x | x in RecipesByIngredients(store, a, limit) ensures x in wide {
      var i :| 0 <= i < |RecipesByIngredients(store, a, limit)| && RecipesByIngredients(store, a, limit)[i] == x;
      assert FormatsUsing(store, a, x);
      var j :| 0 <= j < |store| && x == FormatForAi(store[j]) && UsesAnyOf(store[j], a);
      var k :| 0 <= k < |store[j].links| && store[j].links[k].ingredient.Some? && store[j].links[k].ingredient.value.name in a;
      assert store[j].links[k].ingredient.value.name in a + b;
      assert UsesAnyOf(store[j], a + b);
    }
  }

  // ---------------------------------------------------------------- by nutrition goals

  const ProteinKeywords: seq<string> := ["鸡胸肉", "牛肉", "鱼", "蛋", "豆腐", "虾"]
  const CarbKeywords: seq<string> := ["米饭", "面条", "面包", "土豆"]
  const FatKeywords: seq<string> := ["油炸", "红烧", "糖醋"]

  /**
   * `NOT name LIKE '%k%' AND NOT description LIKE '%k%'` under SQL's three-valued logic: a NULL
   * description makes the condition unknown, and the row is dropped.
   */
  predicate AvoidsKeyword(r: Recipe, k: string) {
    !Contains(r.name, k) && r.description.Some? && !Contains(r.description.value, k)
  }

  /** The conditions of `get_recipes_by_nutrition_goals` for the given goal flags. */
  predicate MeetsNutritionGoals(r: Recipe, highProtein: bool, lowCarb: bool, lowFat: bool) {
    (highProtein ==> exists j :: 0 <= j < |ProteinKeywords| && NameOrDescriptionLike(r, ProteinKeywords[j])) &&
    (lowCarb ==> forall j :: 0 <= j < |CarbKeywords| ==> AvoidsKeyword(r, CarbKeywords[j])) &&
    (lowFat ==> forall j :: 0 <= j < |FatKeywords| ==> AvoidsKeyword(r, FatKeywords[j]))
  }

  /** The rows the nutrition query fetches: stored recipes meeting the goals, at most `limit`. */
  function NutritionMatchRows(store: seq<Recipe>, highProtein: bool, lowCarb: bool, lowFat: bool, limit: nat)
    : (rows: seq<Recipe>)
    ensures |rows| <= limit
    ensures forall i :: 0 <= i < |rows| ==> rows[i] in store && MeetsNutritionGoals(rows[i], highProtein, lowCarb, lowFat)
    ensures |rows| < limit ==> forall i :: 0 <= i < |store| && MeetsNutritionGoals(store[i], highProtein, lowCarb, lowFat) ==> store[i] in rows
    ensures !highProtein && !lowCarb && !lowFat ==> rows == Seqs.Take(store, limit)
    ensures Seqs.IsSubsequence(rows, store)
  {
    var matched := Seqs.Filter(store, r => MeetsNutritionGoals(r, highProtein, lowCarb, lowFat));
    assert !highProtein && !lowCarb && !lowFat ==> matched == store by {
      if !highProtein && !lowCarb && !lowFat {
        Seqs.FilterKeepsAll(store, r => MeetsNutritionGoals(r, highProtein, lowCarb, lowFat));
      }
    }
    Seqs.FilterIsSubsequence(store, r => MeetsNutritionGoals(r, highProtein, lowCarb, lowFat));
    Seqs.TakeIsSubsequence(matched, limit);
    Seqs.SubsequenceTrans(Seqs.Take(matched, limit), matched, store);
    Seqs.Take(matched, limit)
  }

  /** `x` is the formatted record of a stored recipe that meets the goals. */
  ghost predicate FormatsMeeting(store: seq<Recipe>, highProtein: bool, lowCarb: bool, lowFat: bool, x: AiRecipe) {
    exists j :: 0 <= j < |store| && x == FormatForAi(store[j]) && MeetsNutritionGoals(store[j], highProtein, lowCarb, lowFat)
  }

  /**
   * `get_recipes_by_nutrition_goals`: the formatted records of at most `limit` stored recipes
   * meeting the goals, in storage order and each once.
   */
  function RecipesByNutritionGoals(store: seq<Recipe>, highProtein: bool, lowCarb: bool, lowFat: bool, limit: nat)
    : (out: seq<AiRecipe>)
    ensures |out| <= limit
    ensures forall i :: 0 <= i < |out| ==> FormatsMeeting(store, highProtein, lowCarb, lowFat, out[i])
    ensures |out| < limit ==> forall i :: 0 <= i < |store| && MeetsNutritionGoals(store[i], highProtein, lowCarb, lowFat) ==>
      FormatForAi(store[i]) in out
    ensures !highProtein && !lowCarb && !lowFat ==> out == FormatAll(Seqs.Take(store, limit))
    ensures Seqs.IsSubsequence(out, FormatAll(store))
  {
    var rows := NutritionMatchRows(store, highProtein, lowCarb, lowFat, limit);
    var out := FormatAll(rows);
    forall i | 0 <= i < |out| ensures FormatsMeeting(store, highProtein, lowCarb, lowFat, out[i]) {
      var j :| 0 <= j < |store| && store[j] == rows[i];
      assert out[i] == FormatForAi(store[j]);
    }
    FormatAllKeepsSubsequence(rows, store);
    FormatAllMembers(rows);
    out
  }

  /** A recipe without a description is never returned for a low-carb or low-fat goal. */
  lemma NullDescriptionFailsAvoidGoals(r: Recipe, highProtein: bool, lowCarb: bool, lowFat: bool)
    requires r.description.None?
    requires lowCarb || lowFat
    ensures !MeetsNutritionGoals(r, highProtein, lowCarb, lowFat)
  {
    assert !AvoidsKeyword(r, CarbKeywords[0]);
    assert !AvoidsKeyword(r, FatKeywords[0]);
  }
}
