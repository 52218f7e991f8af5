/**
 * `_categorize_recipes_by_meal`: sorts formatted recipes into breakfast, lunch and dinner by
 * keywords in the lower-cased category and name and by cooking time, then rebalances: an empty
 * breakfast takes up to two simple lunch dishes (moved), and an empty dinner receives copies of
 * the last two lunch dishes.
 */
module MealCategories {
  import opened Wrappers
  import opened Text
  import opened Recipes
  import opened RecipeQuery
  import Seqs

  datatype Meal = Breakfast | Lunch | Dinner

  datatype MealBuckets = MealBuckets(breakfast: seq<AiRecipe>, lunch: seq<AiRecipe>, dinner: seq<AiRecipe>)

  const BreakfastWords: seq<string> := ["早餐", "breakfast", "粥", "包子", "豆浆", "油条", "蛋"]
  const QuickBreakfastWords: seq<string> := ["蛋", "粥", "面包", "牛奶"]
  const DinnerWords: seq<string> := ["晚餐", "dinner", "汤", "炖", "煲", "红烧"]
  const SimpleDifficulty: string := "简单"

  /** Some keyword occurs in `category` or in `name`. */
  predicate AnyWordIn(words: seq<string>, category: string, name: string) {
    exists j :: 0 <= j < |words| && (Contains(category, words[j]) || Contains(name, words[j]))
  }

  /**
   * The meal a recipe is first assigned to. The formatted record carries the recipe's own
   * name, category and cooking time, so it is classified directly.
   */
  function MealOf(a: AiRecipe): Meal {
    var category := if Truthy(a.category) then Lower(a.category.value) else "";
    var name := Lower(a.name);
    var quick := TruthyInt(a.cookingTime) && a.cookingTime.value <= 15;
    var slow := TruthyInt(a.cookingTime) && a.cookingTime.value >= 60;
    if AnyWordIn(BreakfastWords, category, name) || (quick && AnyWordIn(QuickBreakfastWords, "", name)) then Breakfast
    else if AnyWordIn(DinnerWords, category, name) || slow then Dinner
    else Lunch
  }

  predicate IsSimple(a: AiRecipe) {
    a.difficulty == Some(SimpleDifficulty)
  }

  /** `x` sits in one of the three buckets. */
  predicate InBuckets(m: MealBuckets, x: AiRecipe) {
    x in m.breakfast || x in m.lunch || x in m.dinner
  }

  /** Each bucket holds only dishes that `meal` assigns to it. */
  predicate Classified(m: MealBuckets, meal: AiRecipe -> Meal) {
    (forall i :: 0 <= i < |m.breakfast| ==> meal(m.breakfast[i]) == Breakfast) &&
    (forall i :: 0 <= i < |m.lunch| ==> meal(m.lunch[i]) == Lunch) &&
    (forall i :: 0 <= i < |m.dinner| ==> meal(m.dinner[i]) == Dinner)
  }

  /** Three filters whose predicates split every element exactly one way share out the input. */
  lemma {:induction false} FilterSplit<T>(xs: seq<T>, p: T -> bool, q: T -> bool, r: T -> bool)
    requires forall x :: (if p(x) then 1 else 0) + (if q(x) then 1 else 0) + (if r(x) then 1 else 0) == 1
    ensures multiset(Seqs.Filter(xs, p)) + multiset(Seqs.Filter(xs, q)) + multiset(Seqs.Filter(xs, r)) == multiset(xs)
    decreases |xs|
  {
    if |xs| > 0 {
      FilterSplit(xs[1..], p, q, r);
      assert xs == [xs[0]] + xs[1..];
    }
  }

  /** The first pass: each record goes to the bucket `meal` assigns it, in input order. */
  function Partition(xs: seq<AiRecipe>, meal: AiRecipe -> Meal): (m: MealBuckets)
    ensures Classified(m, meal)
    ensures forall x :: InBuckets(m, x) <==> x in xs
    ensures multiset(m.breakfast) + multiset(m.lunch) + multiset(m.dinner) == multiset(xs)
  {
    var isBreakfast := x => meal(x) == Breakfast;
    var isLunch := x => meal(x) == Lunch;
    var isDinner := x => meal(x) == Dinner;
    var m := MealBuckets(Seqs.Filter(xs, isBreakfast), Seqs.Filter(xs, isLunch), Seqs.Filter(xs, isDinner));
    FilterSplit(xs, isBreakfast, isLunch, isDinner);
    assert forall x :: x in xs ==> InBuckets(m, x) by {
      forall x | x in xs
        ensures InBuckets(m, x)
      {
        var i :| 0 <= i < |xs| && xs[i] == x;
      }
    }
    m
  }

  /** `[r for r in lunch if r.get('difficulty') == '简单'][:2]`: the dishes breakfast may take. */
  function SimpleToMove(lunch: seq<AiRecipe>): (moved: seq<AiRecipe>)
    ensures |moved| <= 2
    ensures multiset(moved) <= multiset(lunch)
    ensures forall i :: 0 <= i < |moved| ==> moved[i] in lunch && IsSimple(moved[i])
    ensures |moved| == 0 ==> forall i :: 0 <= i < |lunch| ==> !IsSimple(lunch[i])
  {
    var simple := Seqs.Filter(lunch, IsSimple);
    Seqs.FilterSubMultiset(lunch, IsSimple);
    Seqs.TakeSubMultiset(simple, 2);
    Seqs.Take(simple, 2)
  }

  /** Removing `moved` from `lunch` leaves the other dishes: together they are `lunch` again. */
  lemma RemoveMovedFacts(lunch: seq<AiRecipe>, moved: seq<AiRecipe>, rest: seq<AiRecipe>)
    requires multiset(moved) <= multiset(lunch)
    requires rest == Seqs.RemoveEach(lunch, moved)
    ensures forall x :: (x in moved || x in rest) <==> x in lunch
    ensures multiset(moved) + multiset(rest) == multiset(lunch)
    ensures forall i :: 0 <= i < |rest| ==> rest[i] in lunch
  {
    forall i | 0 <= i < |rest|
      ensures rest[i] in lunch
    {
      assert rest[i] in multiset(rest);
    }
    forall x
      ensures (x in moved || x in rest) <==> x in lunch
    {
      assert x in moved <==> x in multiset(moved);
      assert x in rest <==> x in multiset(rest);
      assert x in lunch <==> x in multiset(lunch);
    }
  }

  /** Moves the simple lunch dishes into an empty breakfast. */
  function MoveSimpleDishes(m: MealBuckets): (r: MealBuckets)
    requires |m.breakfast| == 0 && |SimpleToMove(m.lunch)| > 0
    ensures r.dinner == m.dinner
    ensures forall x :: (x in r.breakfast || x in r.lunch) <==> x in m.lunch
    ensures multiset(r.breakfast) + multiset(r.lunch) == multiset(m.lunch)
    ensures 0 < |r.breakfast| <= 2
    ensures forall i :: 0 <= i < |r.breakfast| ==> r.breakfast[i] in m.lunch && IsSimple(r.breakfast[i])
    ensures forall i :: 0 <= i < |r.lunch| ==> r.lunch[i] in m.lunch
  {
    var moved := SimpleToMove(m.lunch);
    var lunch := Seqs.RemoveEach(m.lunch, moved);
    RemoveMovedFacts(m.lunch, moved, lunch);
    MealBuckets(moved, lunch, m.dinner)
  }

  /** The breakfast step of the rebalancing: up to two simple lunch dishes move to breakfast. */
  function FillBreakfast(m: MealBuckets): (r: MealBuckets)
    ensures r.dinner == m.dinner
    ensures forall x :: (x in r.breakfast || x in r.lunch) <==> (x in m.breakfast || x in m.lunch)
    ensures multiset(r.breakfast) + multiset(r.lunch) == multiset(m.breakfast) + multiset(m.lunch)
    ensures |m.breakfast| > 0 || |m.lunch| == 0 ==> r == m
    ensures |r.breakfast| == 0 ==> forall i :: 0 <= i < |r.lunch| ==> !IsSimple(r.lunch[i])
    ensures |m.breakfast| == 0 ==> forall i :: 0 <= i < |r.breakfast| ==> r.breakfast[i] in m.lunch && IsSimple(r.breakfast[i])
    ensures |r.breakfast| <= |m.breakfast| + 2
    ensures forall i :: 0 <= i < |r.lunch| ==> r.lunch[i] in m.lunch
  {
    if |m.breakfast| == 0 && |m.lunch| > 0 && |SimpleToMove(m.lunch)| > 0 then MoveSimpleDishes(m)
    else m
  }

  /** The dinner step of the rebalancing: an empty dinner gets copies of the last two lunch dishes. */
  function FillDinner(m: MealBuckets): (r: MealBuckets)
    ensures r.breakfast == m.breakfast && r.lunch == m.lunch
    ensures |m.dinner| == 0 ==> r.dinner == Seqs.Last(m.lunch, 2)
    ensures |m.dinner| > 0 ==> r.dinner == m.dinner
  {
    if |m.dinner| == 0 && |m.lunch| > 0 then MealBuckets(m.breakfast, m.lunch, m.dinner + Seqs.Last(m.lunch, 2))
    else m
  }

  /**
   * Both rebalancing steps, applied to a partition. They look only at bucket contents and
   * difficulty, so the classification is a parameter here.
   */
  function Rebalance(m: MealBuckets, meal: AiRecipe -> Meal): (r: MealBuckets)
    requires Classified(m, meal)
    ensures forall x :: InBuckets(r, x) <==> InBuckets(m, x)
    ensures forall i :: 0 <= i < |r.breakfast| ==> meal(r.breakfast[i]) == Breakfast || (meal(r.breakfast[i]) == Lunch && IsSimple(r.breakfast[i]))
    ensures forall i :: 0 <= i < |r.lunch| ==> meal(r.lunch[i]) == Lunch
    ensures forall i :: 0 <= i < |r.dinner| ==> meal(r.dinner[i]) != Breakfast
    ensures |r.lunch| > 0 ==> |r.dinner| > 0
    ensures |r.breakfast| == 0 ==> forall i :: 0 <= i < |r.lunch| ==> !IsSimple(r.lunch[i])
    ensures multiset(r.breakfast) + multiset(r.lunch) == multiset(m.breakfast) + multiset(m.lunch)
    ensures |m.dinner| > 0 ==> r.dinner == m.dinner
    ensures |m.dinner| == 0 ==> r.dinner == Seqs.Last(r.lunch, 2)
  {
    var b := FillBreakfast(m);
    assert forall i :: 0 <= i < |b.lunch| ==> meal(b.lunch[i]) == Lunch;
    var r := FillDinner(b);
    assert forall x :: x in r.dinner ==> x in m.dinner || x in b.lunch;
    r
  }

  /** The records the first pass sends to dinner. */
  function FirstPassDinner(recipes: seq<Recipe>): seq<AiRecipe> {
    Partition(FormatAll(recipes), MealOf).dinner
  }

  /** Some record of the input is formatted from this recipe list. */
  predicate FromInput(recipes: seq<Recipe>, a: AiRecipe) {
    exists i :: 0 <= i < |recipes| && a == FormatForAi(recipes[i])
  }

  /** `_categorize_recipes_by_meal`. */
  function CategorizeByMeal(recipes: seq<Recipe>): (m: MealBuckets)
    ensures forall x :: InBuckets(m, x) <==> FromInput(recipes, x)
    ensures forall i :: 0 <= i < |m.breakfast| ==> MealOf(m.breakfast[i]) == Breakfast || (MealOf(m.breakfast[i]) == Lunch && IsSimple(m.breakfast[i]))
    ensures forall i :: 0 <= i < |m.lunch| ==> MealOf(m.lunch[i]) == Lunch
    ensures forall i :: 0 <= i < |m.dinner| ==> MealOf(m.dinner[i]) != Breakfast
    ensures |m.lunch| > 0 ==> |m.dinner| > 0
    ensures |m.breakfast| == 0 ==> forall i :: 0 <= i < |m.lunch| ==> !IsSimple(m.lunch[i])
    ensures multiset(m.breakfast) + multiset(m.lunch) + multiset(FirstPassDinner(recipes)) == multiset(FormatAll(recipes))
    ensures |FirstPassDinner(recipes)| > 0 ==> m.dinner == FirstPassDinner(recipes)
    ensures |FirstPassDinner(recipes)| == 0 ==> m.dinner == Seqs.Last(m.lunch, 2)
  {
    var formatted := FormatAll(recipes);
    var first := Partition(formatted, MealOf);
    assert forall x :: x in formatted <==> FromInput(recipes, x);
    if |recipes| == 0 then first else Rebalance(first, MealOf)
  }

  /** A simple dish classified as lunch means breakfast is never left empty. */
  lemma SimpleLunchFillsBreakfast(recipes: seq<Recipe>, k: int)
    requires 0 <= k < |recipes|
    requires MealOf(FormatForAi(recipes[k])) == Lunch && IsSimple(FormatForAi(recipes[k]))
    ensures |CategorizeByMeal(recipes).breakfast| > 0
  {
    var a := FormatForAi(recipes[k]);
    var m := CategorizeByMeal(recipes);
    assert FormatAll(recipes)[k] == a;
    assert a in multiset(FormatAll(recipes));
  }

  /** Any dish whose name contains the character for egg is a breakfast dish, whatever else it is. */
  lemma EggDishIsBreakfast(a: AiRecipe)
    requires Contains(a.name, "蛋")
    ensures MealOf(a) == Breakfast
  {
    LowerKeepsOccurrence(a.name, "蛋");
    assert BreakfastWords[6] == "蛋";
    var category := if Truthy(a.category) then Lower(a.category.value) else "";
    assert AnyWordIn(BreakfastWords, category, Lower(a.name));
  }
}
