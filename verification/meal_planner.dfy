/**
 * The meal-plan service: recipe pools per meal slot (with a top-up), the day-by-day plan built
 * from those pools (random choice is an index oracle, the clock a date oracle), the fixed demo
 * plan, the truncation rules of the AI prompt, and the API-key dispatch.
 */
module MealPlanner {
  import opened Wrappers
  import opened Text
  import opened Recipes
  import opened RecipeFilter
  import opened RecipeQuery
  import opened MealCategories
  import Seqs

  // ---------------------------------------------------------------- recipe pools

  /** The budget's cooking-time ceiling in minutes; unknown budgets get the medium ceiling. */
  function CookingTimeCeiling(budget: string): (t: int)
    ensures t == 30 || t == 60 || t == 120
    ensures budget != "low" && budget != "high" ==> t == 60
    ensures t == 30 <==> budget == "low"
    ensures t == 120 <==> budget == "high"
  {
    if budget == "low" then 30 else if budget == "high" then 120 else 60
  }

  /**
   * `r` keeps `first` as its prefix and, when `first` is short of `threshold`, continues with
   * the leading records of `more` until it reaches the threshold or `more` runs out.
   */
  predicate ToppedUp<T(==)>(r: seq<T>, first: seq<T>, threshold: nat, more: seq<T>) {
    |first| <= |r| && r[..|first|] == first &&
    |r| == (if |first| >= threshold then |first|
            else if threshold - |first| < |more| then threshold
            else |first| + |more|) &&
    forall i :: |first| <= i < |r| ==> r[i] == more[i - |first|]
  }

  /** `pool.extend(extra[:threshold - len(pool)])` when the pool is short of the threshold. */
  function TopUp<T(==)>(pool: seq<T>, threshold: nat, extra: seq<T>): (r: seq<T>)
    ensures |pool| <= |r| && r[..|pool|] == pool
    ensures |pool| >= threshold ==> r == pool
    ensures |pool| < threshold ==>
      |r| == |pool| + (if threshold - |pool| < |extra| then threshold - |pool| else |extra|)
    ensures forall i :: |pool| <= i < |r| ==> r[i] == extra[i - |pool|]
    ensures ToppedUp(r, pool, threshold, extra)
  {
    if |pool| < threshold then pool + Seqs.Take(extra, threshold - |pool|) else pool
  }

  /** Every element of a topped-up pool comes from the pool or from the extra results. */
  lemma TopUpMembers<T>(pool: seq<T>, threshold: nat, extra: seq<T>)
    ensures forall i :: 0 <= i < |TopUp(pool, threshold, extra)| ==>
      TopUp(pool, threshold, extra)[i] in pool || TopUp(pool, threshold, extra)[i] in extra
  {
    var r := TopUp(pool, threshold, extra);
    forall i | 0 <= i < |r|
      ensures r[i] in pool || r[i] in extra
    {
      if i < |pool| {
        assert r[i] == r[..|pool|][i];
      }
    }
  }

  datatype Pools = Pools(breakfast: seq<AiRecipe>, lunch: seq<AiRecipe>, dinner: seq<AiRecipe>)

  /** One slot's search: the shared filters with a slot category, a time ceiling and a limit. */
  function SlotCriteria(prefs: seq<string>, allergies: seq<string>, cuisine: Option<string>,
                        ceiling: int, category: Option<string>, limit: nat): Criteria
  {
    Criteria(prefs, allergies, cuisine, None, Some(ceiling), category, limit)
  }

  /** A pooled record is a stored recipe that is allergen-free, meets the preferences and fits the time. */
  ghost predicate Poolable(store: seq<Recipe>, x: AiRecipe, prefs: seq<string>, allergies: seq<string>, ceiling: int) {
    exists j :: 0 <= j < |store| && x == FormatForAi(store[j]) &&
      !HasAllergen(store[j], allergies) && MeetsPreferences(store[j], prefs) &&
      store[j].cookingTime.Some? && store[j].cookingTime.value <= ceiling
  }

  /** Every record of a search with a positive time ceiling `t` is poolable under any ceiling >= `t`. */
  lemma SearchResultsPoolable(store: seq<Recipe>, c: Criteria, ceiling: int)
    requires c.cookingTimeMax.Some? && 0 < c.cookingTimeMax.value <= ceiling
    ensures forall i :: 0 <= i < |SearchRecipesByCriteria(store, c)| ==>
      Poolable(store, SearchRecipesByCriteria(store, c)[i], c.dietaryPreferences, c.allergies, ceiling)
  {
    var out := SearchRecipesByCriteria(store, c);
    forall i | 0 <= i < |out|
      ensures Poolable(store, out[i], c.dietaryPreferences, c.allergies, ceiling)
    {
      assert FormatsQualifying(store, c, out[i]);
      var j :| 0 <= j < |store| && out[i] == FormatForAi(store[j]) && Qualifies(store[j], c);
      assert MatchesStoreQuery(store[j], c);
    }
  }

  /**
   * One slot's pool: the slot's own search, topped up to `threshold` from a second search.
   * Both searches have positive time ceilings no greater than `ceiling`.
   */
  function SlotPool(store: seq<Recipe>, primary: Criteria, threshold: nat, extra: Criteria, ceiling: int): (r: seq<AiRecipe>)
    requires primary.cookingTimeMax.Some? && 0 < primary.cookingTimeMax.value <= ceiling
    requires extra.cookingTimeMax.Some? && 0 < extra.cookingTimeMax.value <= ceiling
    requires primary.dietaryPreferences == extra.dietaryPreferences && primary.allergies == extra.allergies
    requires threshold <= primary.limit
    ensures |r| <= primary.limit
    ensures forall i :: 0 <= i < |r| ==> Poolable(store, r[i], primary.dietaryPreferences, primary.allergies, ceiling)
    ensures ToppedUp(r, SearchRecipesByCriteria(store, primary), threshold, SearchRecipesByCriteria(store, extra))
  {
    var first := SearchRecipesByCriteria(store, primary);
    var more := SearchRecipesByCriteria(store, extra);
    SearchResultsPoolable(store, primary, ceiling);
    SearchResultsPoolable(store, extra, ceiling);
    TopUpMembers(first, threshold, more);
    TopUp(first, threshold, more)
  }

  /**
   * `_query_available_recipes`. `store` is `None` when the database raises, which yields three
   * empty pools.
   */
  function QueryAvailableRecipes(store: Option<seq<Recipe>>, prefs: seq<string>, allergies: seq<string>,
                                 cuisine: Option<string>, budget: string): (p: Pools)
    ensures store.None? ==> p == Pools([], [], [])
    ensures |p.breakfast| <= 10 && |p.lunch| <= 15 && |p.dinner| <= 15
    ensures store.Some? ==>
      var ceiling := CookingTimeCeiling(budget);
      (forall i :: 0 <= i < |p.breakfast| ==> Poolable(store.value, p.breakfast[i], prefs, allergies, ceiling)) &&
      (forall i :: 0 <= i < |p.lunch| ==> Poolable(store.value, p.lunch[i], prefs, allergies, ceiling)) &&
      (forall i :: 0 <= i < |p.dinner| ==> Poolable(store.value, p.dinner[i], prefs, allergies, ceiling))
    ensures store.Some? ==>
      var ceiling := CookingTimeCeiling(budget);
      var extra := SearchRecipesByCriteria(store.value, SlotCriteria(prefs, allergies, cuisine, ceiling, None, 15));
      ToppedUp(p.breakfast, SearchRecipesByCriteria(store.value, SlotCriteria(prefs, allergies, cuisine, ceiling, Some("早餐"), 10)), 5,
               SearchRecipesByCriteria(store.value, SlotCriteria(prefs, allergies, cuisine, 30, None, 10))) &&
      ToppedUp(p.lunch, SearchRecipesByCriteria(store.value, SlotCriteria(prefs, allergies, cuisine, ceiling, Some("午餐"), 15)), 8, extra) &&
      ToppedUp(p.dinner, SearchRecipesByCriteria(store.value, SlotCriteria(prefs, allergies, cuisine, ceiling, Some("晚餐"), 15)), 8, extra)
  {
    if store.None? then Pools([], [], [])
    else
      var ceiling := CookingTimeCeiling(budget);
      var extra := SlotCriteria(prefs, allergies, cuisine, ceiling, None, 15);
      Pools(
        SlotPool(store.value, SlotCriteria(prefs, allergies, cuisine, ceiling, Some("早餐"), 10), 5,
                 SlotCriteria(prefs, allergies, cuisine, 30, None, 10), ceiling),
        SlotPool(store.value, SlotCriteria(prefs, allergies, cuisine, ceiling, Some("午餐"), 15), 8, extra, ceiling),
        SlotPool(store.value, SlotCriteria(prefs, allergies, cuisine, ceiling, Some("晚餐"), 15), 8, extra, ceiling))
  }

  /**
   * With no filters beyond the budget, a stored breakfast recipe that fits the budget's time
   * ceiling always gives the breakfast pool something to choose from.
   */
  lemma StoredBreakfastIsPooled(store: seq<Recipe>, budget: string, k: int)
    requires 0 <= k < |store| && store[k].category == Some("早餐")
    requires store[k].cookingTime.Some? && store[k].cookingTime.value <= CookingTimeCeiling(budget)
    ensures |QueryAvailableRecipes(Some(store), [], [], None, budget).breakfast| > 0
  {
    var c := SlotCriteria([], [], None, CookingTimeCeiling(budget), Some("早餐"), 10);
    StoredBreakfastIsFound(store, CookingTimeCeiling(budget), k);
    var p := QueryAvailableRecipes(Some(store), [], [], None, budget);
    assert ToppedUp(p.breakfast, SearchRecipesByCriteria(store, c), 5,
                    SearchRecipesByCriteria(store, SlotCriteria([], [], None, 30, None, 10)));
  }

  /** The search step of StoredBreakfastIsPooled: the unfiltered breakfast search finds something. */
  lemma StoredBreakfastIsFound(store: seq<Recipe>, ceiling: int, k: int)
    requires 0 <= k < |store| && store[k].category == Some("早餐")
    requires store[k].cookingTime.Some? && store[k].cookingTime.value <= ceiling
    ensures |SearchRecipesByCriteria(store, SlotCriteria([], [], None, ceiling, Some("早餐"), 10))| > 0
  {
    var c := SlotCriteria([], [], None, ceiling, Some("早餐"), 10);
    var rows := StoreRows(store, c);
    assert MatchesStoreQuery(store[k], c);
    if |rows| < c.limit {
      assert store[k] in rows;
    }
    assert |rows| > 0;
    assert !HasAllergen(rows[0], []) && MeetsPreferences(rows[0], []);
    assert FormatForAi(rows[0]) in SearchRecipesByCriteria(store, c);
  }

  // ---------------------------------------------------------------- the plan

  datatype PlannedMeal = PlannedMeal(
    kind: Meal,
    name: string,
    ingredients: seq<string>,
    prepTime: string,
    calories: string,
    difficulty: Option<string>,
    recipeId: Option<int>)

  datatype DayPlan = DayPlan(day: int, date: string, meals: seq<PlannedMeal>)

  datatype NutritionSummary = NutritionSummary(totalCalories: string, protein: string, carbs: string, fat: string)

  datatype PlanData = PlanData(mealPlan: seq<DayPlan>, shoppingList: seq<string>, tips: seq<string>, nutrition: NutritionSummary)

  /** The service's reply: `data` is present exactly on success. */
  datatype ServiceResult = ServiceResult(success: bool, data: Option<PlanData>, message: string)

  function Minutes(n: int): string {
    IntToString(n) + "分钟"
  }

  function Calories(n: int): string {
    IntToString(n) + "卡路里"
  }

  /** Per slot: default preparation minutes and the calorie figure of a real meal. */
  function DefaultMinutes(kind: Meal): int {
    match kind
    case Breakfast => 15
    case Lunch => 30
    case Dinner => 40
  }

  function SlotCalories(kind: Meal): int {
    match kind
    case Breakfast => 350
    case Lunch => 500
    case Dinner => 450
  }

  /** A meal made from a pooled recipe. */
  function RealMeal(kind: Meal, r: AiRecipe): (m: PlannedMeal)
    ensures m.kind == kind && m.recipeId == Some(r.id) && m.ingredients == r.ingredientSummary && m.name == r.name
    ensures m.calories == Calories(SlotCalories(kind)) && m.difficulty == r.difficulty
    ensures TruthyInt(r.cookingTime) ==> m.prepTime == Minutes(r.cookingTime.value)
    ensures !TruthyInt(r.cookingTime) ==> m.prepTime == Minutes(DefaultMinutes(kind))
  {
    var prep := if TruthyInt(r.cookingTime) then Minutes(r.cookingTime.value) else Minutes(DefaultMinutes(kind));
    PlannedMeal(kind, r.name, r.ingredientSummary, prep, Calories(SlotCalories(kind)), r.difficulty, Some(r.id))
  }

  /** The meal used when a slot's pool is empty. */
  function Placeholder(kind: Meal, day: int): (m: PlannedMeal)
    ensures m.recipeId.None? && m.kind == kind
    ensures m.calories == Calories(SlotCalories(kind))
    ensures m.name == "第" + IntToString(day) + (match kind
      case Breakfast => "天营养早餐" case Lunch => "天健康午餐" case Dinner => "天营养晚餐")
    ensures m.ingredients == (match kind
      case Breakfast => ["燕麦片", "牛奶", "香蕉"] case Lunch => ["鸡胸肉", "西兰花", "糙米"] case Dinner => ["三文鱼", "蔬菜沙拉", "红薯"])
    ensures m.prepTime == Minutes(match kind case Breakfast => 10 case Lunch => 25 case Dinner => 30)
    ensures m.difficulty == Some(if kind == Breakfast then "简单" else "中等")
  {
    match kind
    case Breakfast =>
      PlannedMeal(kind, "第" + IntToString(day) + "天营养早餐", ["燕麦片", "牛奶", "香蕉"], Minutes(10), Calories(350), Some("简单"), None)
    case Lunch =>
      PlannedMeal(kind, "第" + IntToString(day) + "天健康午餐", ["鸡胸肉", "西兰花", "糙米"], Minutes(25), Calories(500), Some("中等"), None)
    case Dinner =>
      PlannedMeal(kind, "第" + IntToString(day) + "天营养晚餐", ["三文鱼", "蔬菜沙拉", "红薯"], Minutes(30), Calories(450), Some("中等"), None)
  }

  /** A slot's meal on `day` is drawn from its pool, or is the placeholder when the pool is empty. */
  ghost predicate MealFromPool(m: PlannedMeal, kind: Meal, day: int, pool: seq<AiRecipe>) {
    if |pool| == 0 then m == Placeholder(kind, day)
    else exists k :: 0 <= k < |pool| && m == RealMeal(kind, pool[k])
  }

  /** `random.choice(pool)`, with the choice for (day, slot) supplied by `pick`. */
  function ChooseMeal(kind: Meal, day: int, pool: seq<AiRecipe>, pick: (int, Meal) -> nat): (m: PlannedMeal)
    ensures MealFromPool(m, kind, day, pool)
    ensures m.kind == kind
    ensures m.recipeId.Some? <==> |pool| > 0
  {
    if |pool| == 0 then Placeholder(kind, day)
    else RealMeal(kind, pool[pick(day, kind) % |pool|])
  }

  /**
   * Day `day` of a plan: dated by the clock, three meals in the order breakfast, lunch,
   * dinner, each drawn from its slot's pool.
   */
  ghost predicate WellFormedDay(d: DayPlan, day: int, pools: Pools, dateOf: int -> string) {
    d.day == day && d.date == dateOf(day - 1) && |d.meals| == 3 &&
    d.meals[0].kind == Breakfast && d.meals[1].kind == Lunch && d.meals[2].kind == Dinner &&
    MealFromPool(d.meals[0], Breakfast, day, pools.breakfast) &&
    MealFromPool(d.meals[1], Lunch, day, pools.lunch) &&
    MealFromPool(d.meals[2], Dinner, day, pools.dinner)
  }

  /** One day's entry. */
  function PlanDay(day: int, pools: Pools, pick: (int, Meal) -> nat, dateOf: int -> string): (d: DayPlan)
    ensures WellFormedDay(d, day, pools, dateOf)
  {
    DayPlan(day, dateOf(day - 1), [
      ChooseMeal(Breakfast, day, pools.breakfast, pick),
      ChooseMeal(Lunch, day, pools.lunch, pick),
      ChooseMeal(Dinner, day, pools.dinner, pick)])
  }

  /** Days 1..n (`range(1, days + 1)`); empty when n <= 0. */
  function PlanDays(n: int, pools: Pools, pick: (int, Meal) -> nat, dateOf: int -> string): (r: seq<DayPlan>)
    ensures |r| == if n < 0 then 0 else n
    ensures forall i :: 0 <= i < |r| ==> WellFormedDay(r[i], i + 1, pools, dateOf)
    decreases n
  {
    if n <= 0 then []
    else
      var prev := PlanDays(n - 1, pools, pick, dateOf);
      var d := PlanDay(n, pools, pick, dateOf);
      AppendDay(prev, d, pools, dateOf);
      prev + [d]
  }

  /** The step of PlanDays: day |prev| + 1 appended to days 1..|prev| gives days 1..|prev| + 1. */
  lemma AppendDay(prev: seq<DayPlan>, d: DayPlan, pools: Pools, dateOf: int -> string)
    requires forall i :: 0 <= i < |prev| ==> WellFormedDay(prev[i], i + 1, pools, dateOf)
    requires WellFormedDay(d, |prev| + 1, pools, dateOf)
    ensures forall i :: 0 <= i < |prev| + 1 ==> WellFormedDay((prev + [d])[i], i + 1, pools, dateOf)
  {
    forall i | 0 <= i < |prev| + 1
      ensures WellFormedDay((prev + [d])[i], i + 1, pools, dateOf)
    {
      if i < |prev| {
        assert (prev + [d])[i] == prev[i];
      }
    }
  }

  /** Every ingredient of every meal, day by day, slot by slot. */
  function AllIngredients(plan: seq<DayPlan>): (r: seq<string>)
    ensures forall d, m, k :: 0 <= d < |plan| && 0 <= m < |plan[d].meals| && 0 <= k < |plan[d].meals[m].ingredients| ==>
      plan[d].meals[m].ingredients[k] in r
    ensures forall i :: 0 <= i < |r| ==> exists d, m :: 0 <= d < |plan| && 0 <= m < |plan[d].meals| && r[i] in plan[d].meals[m].ingredients
  {
    if |plan| == 0 then []
    else
      var rest := AllIngredients(plan[1..]);
      var first := MealIngredients(plan[0].meals);
      assert forall i :: 0 <= i < |rest| ==> exists d, m :: 0 <= d < |plan| && 0 <= m < |plan[d].meals| && rest[i] in plan[d].meals[m].ingredients by {
        forall i | 0 <= i < |rest|
          ensures exists d, m :: 0 <= d < |plan| && 0 <= m < |plan[d].meals| && rest[i] in plan[d].meals[m].ingredients
        {
          var d, m :| 0 <= d < |plan[1..]| && 0 <= m < |plan[1..][d].meals| && rest[i] in plan[1..][d].meals[m].ingredients;
          assert plan[1..][d] == plan[d + 1];
        }
      }
      assert forall d, m, k :: 0 <= d < |plan| && 0 <= m < |plan[d].meals| && 0 <= k < |plan[d].meals[m].ingredients| ==>
        plan[d].meals[m].ingredients[k] in first + rest by {
        forall d, m, k | 0 <= d < |plan| && 0 <= m < |plan[d].meals| && 0 <= k < |plan[d].meals[m].ingredients|
          ensures plan[d].meals[m].ingredients[k] in first + rest
        {
          if d > 0 {
            assert plan[d] == plan[1..][d - 1];
          }
        }
      }
      first + rest
  }

  /** Every ingredient of a list of meals, in order. */
  function MealIngredients(meals: seq<PlannedMeal>): (r: seq<string>)
    ensures forall m, k :: 0 <= m < |meals| && 0 <= k < |meals[m].ingredients| ==> meals[m].ingredients[k] in r
    ensures forall i :: 0 <= i < |r| ==> exists m :: 0 <= m < |meals| && r[i] in meals[m].ingredients
  {
    if |meals| == 0 then []
    else
      var rest := MealIngredients(meals[1..]);
      assert forall i :: 0 <= i < |rest| ==> exists m :: 0 <= m < |meals| && rest[i] in meals[m].ingredients by {
        forall i | 0 <= i < |rest|
          ensures exists m :: 0 <= m < |meals| && rest[i] in meals[m].ingredients
        {
          var m :| 0 <= m < |meals[1..]| && rest[i] in meals[1..][m].ingredients;
          assert meals[1..][m] == meals[m + 1];
        }
      }
      assert forall m, k :: 0 <= m < |meals| && 0 <= k < |meals[m].ingredients| ==> meals[m].ingredients[k] in meals[0].ingredients + rest by {
        forall m, k | 0 <= m < |meals| && 0 <= k < |meals[m].ingredients|
          ensures meals[m].ingredients[k] in meals[0].ingredients + rest
        {
          if m > 0 {
            assert meals[m] == meals[1..][m - 1];
          }
        }
      }
      meals[0].ingredients + rest
  }

  /**
   * The shopping list: every ingredient of the plan once. The service builds a Python set,
   * whose order is unspecified; the model fixes first-appearance order.
   */
  function ShoppingList(plan: seq<DayPlan>): (r: seq<string>)
    ensures Seqs.NoDups(r)
    ensures forall i :: 0 <= i < |r| ==> r[i] in AllIngredients(plan)
    ensures forall i :: 0 <= i < |AllIngredients(plan)| ==> AllIngredients(plan)[i] in r
  {
    Seqs.AddNew([], AllIngredients(plan))
  }

  /** The shopping list holds exactly the ingredients of the planned meals. */
  lemma ShoppingListIsUnion(plan: seq<DayPlan>)
    ensures forall d, m, k :: 0 <= d < |plan| && 0 <= m < |plan[d].meals| && 0 <= k < |plan[d].meals[m].ingredients| ==>
      plan[d].meals[m].ingredients[k] in ShoppingList(plan)
    ensures forall i :: 0 <= i < |ShoppingList(plan)| ==>
      exists d, m :: 0 <= d < |plan| && 0 <= m < |plan[d].meals| && ShoppingList(plan)[i] in plan[d].meals[m].ingredients
  {
    var r := ShoppingList(plan);
    var all := AllIngredients(plan);
    forall d, m, k | 0 <= d < |plan| && 0 <= m < |plan[d].meals| && 0 <= k < |plan[d].meals[m].ingredients|
      ensures plan[d].meals[m].ingredients[k] in r
    {
      assert plan[d].meals[m].ingredients[k] in all;
      var j :| 0 <= j < |all| && all[j] == plan[d].meals[m].ingredients[k];
    }
    forall i | 0 <= i < |r|
      ensures exists d, m :: 0 <= d < |plan| && 0 <= m < |plan[d].meals| && r[i] in plan[d].meals[m].ingredients
    {
      var j :| 0 <= j < |all| && all[j] == r[i];
    }
  }

  /** With no breakfast recipe to draw from, the placeholder breakfast puts oats on the shopping list. */
  lemma EmptyBreakfastPoolBuysOats(days: int, prefs: seq<string>, pools: Pools,
                                   pick: (int, Meal) -> nat, dateOf: int -> string)
    requires |pools.breakfast| == 0 && days >= 1
    ensures "燕麦片" in GenerateWithRealRecipes(days, prefs, pools, pick, dateOf).data.value.shoppingList
  {
    var plan := GenerateWithRealRecipes(days, prefs, pools, pick, dateOf).data.value.mealPlan;
    assert WellFormedDay(plan[0], 1, pools, dateOf);
    assert plan[0].meals[0] == Placeholder(Breakfast, 1);
    assert plan[0].meals[0].ingredients[0] == "燕麦片";
    assert "燕麦片" in AllIngredients(plan);
  }

  const VegetarianTip: string := "素食饮食请注意蛋白质和维生素B12的补充"
  const LowCarbTip: string := "低碳水饮食期间可适当增加健康脂肪摄入"
  const HighProteinTip: string := "高蛋白饮食请确保充足的水分摄入"
  const BaseTips: seq<string> := ["建议提前准备食材，可以节省每日烹饪时间", "多喝水，保持身体水分充足", "适量运动，配合健康饮食效果更佳"]

  /** The three base tips, then one tip per recognised preference, in a fixed order. */
  function Tips(prefs: seq<string>): (t: seq<string>)
    ensures |t| >= 3 && t[..3] == BaseTips
    ensures VegetarianTip in t <==> "vegetarian" in prefs
    ensures LowCarbTip in t <==> "low-carb" in prefs
    ensures HighProteinTip in t <==> "high-protein" in prefs
    ensures |t| == 3 + (if "vegetarian" in prefs then 1 else 0) + (if "low-carb" in prefs then 1 else 0) + (if "high-protein" in prefs then 1 else 0)
  {
    BaseTips
      + (if "vegetarian" in prefs then [VegetarianTip] else [])
      + (if "low-carb" in prefs then [LowCarbTip] else [])
      + (if "high-protein" in prefs then [HighProteinTip] else [])
  }

  /** `_generate_meal_plan_with_real_recipes`. */
  function GenerateWithRealRecipes(days: int, prefs: seq<string>, pools: Pools,
                                   pick: (int, Meal) -> nat, dateOf: int -> string): (res: ServiceResult)
    ensures res.success && res.data.Some?
    ensures |res.data.value.mealPlan| == if days < 0 then 0 else days
    ensures forall i :: 0 <= i < |res.data.value.mealPlan| ==> WellFormedDay(res.data.value.mealPlan[i], i + 1, pools, dateOf)
    ensures res.data.value.shoppingList == ShoppingList(res.data.value.mealPlan)
    ensures res.data.value.tips == Tips(prefs)
    ensures res.data.value.nutrition.totalCalories == Calories(days * 1300)
  {
    var plan := PlanDays(days, pools, pick, dateOf);
    var message := "菜谱规划生成成功（基于" + IntToString(|pools.breakfast|) + "个早餐、" +
      IntToString(|pools.lunch|) + "个午餐、" + IntToString(|pools.dinner|) + "个晚餐菜谱）";
    ServiceResult(true, Some(PlanData(plan, ShoppingList(plan), Tips(prefs),
      NutritionSummary(Calories(days * 1300), "充足", "适中", "健康脂肪为主"))), message)
  }

  // ---------------------------------------------------------------- the demo plan

  function MockMeal(kind: Meal, name: string, ingredients: seq<string>, minutes: int, calories: int): PlannedMeal {
    PlannedMeal(kind, name, ingredients, Minutes(minutes), Calories(calories), None, None)
  }

  /** `f"{day:02d}"`: at least two digits, zero-padded. */
  function TwoDigits(n: nat): (r: string)
    ensures |r| >= 2 && (n < 10 ==> |r| == 2)
    ensures forall i :: 0 <= i < |r| ==> '0' <= r[i] <= '9'
    ensures r[0] == '0' <==> n < 10
  {
    NatToStringValue(n);
    if n < 10 then "0" + NatToString(n) else NatToString(n)
  }

  /** The padded digits still read as the day number. */
  lemma TwoDigitsValue(n: nat)
    ensures DigitsValue(TwoDigits(n)) == n
  {
    NatToStringValue(n);
    if n < 10 {
      LeadingZeroValue(NatToString(n));
    }
  }

  const MockDayOne: DayPlan := DayPlan(1, "2024-01-01", [
    MockMeal(Breakfast, "燕麦粥配水果", ["燕麦片", "牛奶", "香蕉", "蓝莓", "蜂蜜"], 10, 350),
    MockMeal(Lunch, "鸡胸肉沙拉", ["鸡胸肉", "生菜", "西红柿", "黄瓜", "橄榄油"], 20, 420),
    MockMeal(Dinner, "三文鱼配蒸蔬菜", ["三文鱼", "西兰花", "胡萝卜", "柠檬", "橄榄油"], 25, 480)])

  const MockDayTwo: DayPlan := DayPlan(2, "2024-01-02", [
    MockMeal(Breakfast, "全麦吐司配牛油果", ["全麦面包", "牛油果", "鸡蛋", "西红柿"], 15, 380),
    MockMeal(Lunch, "蔬菜炒饭", ["糙米", "胡萝卜", "豌豆", "鸡蛋", "酱油"], 18, 450),
    MockMeal(Dinner, "烤鸡腿配烤蔬菜", ["鸡腿", "土豆", "洋葱", "彩椒", "迷迭香"], 35, 520)])

  const MockShoppingList: seq<string> := [
    "燕麦片", "牛奶", "香蕉", "蓝莓", "蜂蜜",
    "鸡胸肉", "生菜", "西红柿", "黄瓜", "橄榄油",
    "三文鱼", "西兰花", "胡萝卜", "柠檬",
    "全麦面包", "牛油果", "鸡蛋",
    "糙米", "豌豆", "酱油", "鸡腿", "土豆", "洋葱", "彩椒", "迷迭香"]

  /** A generated demo day after the second. */
  function MockDay(day: nat): DayPlan {
    DayPlan(day, "2024-01-" + TwoDigits(day), [
      MockMeal(Breakfast, "第" + NatToString(day) + "天早餐", ["营养早餐食材"], 15, 350),
      MockMeal(Lunch, "第" + NatToString(day) + "天午餐", ["健康午餐食材"], 20, 450),
      MockMeal(Dinner, "第" + NatToString(day) + "天晚餐", ["营养晚餐食材"], 25, 450)])
  }

  /** Demo days 3..n. */
  function MockDays(n: int): (r: seq<DayPlan>)
    ensures |r| == if n < 3 then 0 else n - 2
    ensures forall i :: 0 <= i < |r| ==> r[i].day == i + 3 && |r[i].meals| == 3
    decreases n
  {
    if n < 3 then [] else MockDays(n - 1) + [MockDay(n)]
  }

  /** The demo days: the two fixed days, then generated days up to `days`. */
  function MockPlanDays(days: int): (r: seq<DayPlan>)
    ensures |r| == if days <= 2 then 2 else days
    ensures forall i :: 0 <= i < |r| ==> r[i].day == i + 1 && |r[i].meals| == 3
  {
    var rest := MockDays(days);
    assert forall i :: 0 <= i < |rest| ==> ([MockDayOne, MockDayTwo] + rest)[i + 2] == rest[i];
    [MockDayOne, MockDayTwo] + rest
  }

  /** `_get_mock_meal_plan`: always a success, priced at 1250 kcal a day, with one tip beyond the base tips. */
  function MockMealPlan(days: int): (res: ServiceResult)
    ensures res.success && res.data.Some?
    ensures res.data.value.mealPlan == MockPlanDays(days)
    ensures res.data.value.nutrition.totalCalories == Calories(days * 1250)
    ensures |res.data.value.tips| == 4 && res.data.value.tips[..3] == BaseTips
    ensures res.data.value.tips[3] == "可以根据个人口味调整调料用量"
    ensures res.data.value.shoppingList == MockShoppingList
    ensures res.data.value.nutrition.protein == "充足" && res.data.value.nutrition.carbs == "适中" &&
            res.data.value.nutrition.fat == "健康脂肪为主"
    ensures res.message == "菜谱规划生成成功（演示数据）"
  {
    ServiceResult(true, Some(PlanData(MockPlanDays(days), MockShoppingList, BaseTips + ["可以根据个人口味调整调料用量"],
      NutritionSummary(Calories(days * 1250), "充足", "适中", "健康脂肪为主"))), "菜谱规划生成成功（演示数据）")
  }

  /** The demo shopping list holds every ingredient of the two fixed demo days. */
  lemma MockListCoversFixedDays()
    ensures forall m, k :: 0 <= m < 3 && 0 <= k < |MockDayOne.meals[m].ingredients| ==>
      MockDayOne.meals[m].ingredients[k] in MockShoppingList
    ensures forall m, k :: 0 <= m < 3 && 0 <= k < |MockDayTwo.meals[m].ingredients| ==>
      MockDayTwo.meals[m].ingredients[k] in MockShoppingList
  {
    forall m, k | 0 <= m < 3 && 0 <= k < |MockDayOne.meals[m].ingredients|
      ensures MockDayOne.meals[m].ingredients[k] in MockShoppingList
    {
      assert MockDayOne.meals[m].ingredients[k] in MockShoppingList;
    }
    forall m, k | 0 <= m < 3 && 0 <= k < |MockDayTwo.meals[m].ingredients|
      ensures MockDayTwo.meals[m].ingredients[k] in MockShoppingList
    {
      assert MockDayTwo.meals[m].ingredients[k] in MockShoppingList;
    }
  }

  /** A one-day request still gets the two fixed demo days. */
  lemma MockPlanHasAtLeastTwoDays(days: int)
    ensures |MockMealPlan(days).data.value.mealPlan| >= 2
    ensures days == 1 ==> |MockMealPlan(days).data.value.mealPlan| == 2
  {
  }

  // ---------------------------------------------------------------- prompt truncation

  /** What the prompt shows of one pooled recipe: its name and at most five ingredients. */
  datatype PromptEntry = PromptEntry(name: string, ingredients: seq<string>, ellipsis: bool)

  /** At most ten recipes per slot; at most five ingredients each, with '...' exactly when some are cut. */
  function PromptEntries(pool: seq<AiRecipe>): (r: seq<PromptEntry>)
    ensures |r| == if |pool| < 10 then |pool| else 10
    ensures forall i :: 0 <= i < |r| ==>
      r[i].name == pool[i].name &&
      |r[i].ingredients| == (if |pool[i].ingredientSummary| < 5 then |pool[i].ingredientSummary| else 5) &&
      r[i].ingredients == pool[i].ingredientSummary[..|r[i].ingredients|] &&
      (r[i].ellipsis <==> |r[i].ingredients| < |pool[i].ingredientSummary|)
  {
    var shown := Seqs.Take(pool, 10);
    seq(|shown|, i requires 0 <= i < |shown| =>
      PromptEntry(shown[i].name, Seqs.Take(shown[i].ingredientSummary, 5), |shown[i].ingredientSummary| > 5))
  }

  /** A recipe with at most five ingredients is shown whole and without '...'; a longer one shows its first five. */
  lemma PromptShowsShortListWhole(pool: seq<AiRecipe>, i: int)
    requires 0 <= i < |pool| && i < 10
    ensures var e := PromptEntries(pool)[i];
      if |pool[i].ingredientSummary| <= 5 then e.ingredients == pool[i].ingredientSummary && !e.ellipsis
      else e.ingredients == pool[i].ingredientSummary[..5] && e.ellipsis
  {
  }

  /** The ingredient line of one entry: names joined by ', ', then '...' when the list was cut. */
  function IngredientLine(e: PromptEntry): string {
    Join(e.ingredients, ", ") + (if e.ellipsis then "..." else "")
  }

  // ---------------------------------------------------------------- dispatch

  /** The key value the service treats as "no key configured". */
  const UnsetKeyMarker: string := "your-deepseek-api-key-here"

  /** The configuration's default when the environment sets no key. */
  const ConfigDefaultKey: string := "your-deepseek-api-key"

  /**
   * What the API call does for a configured key: for the default key it reaches a bare `raise`
   * with no exception in flight, whose error the service reports; otherwise it returns nothing,
   * which the service reports as an unusable answer.
   */
  function CallApiFailure(key: string): (msg: string)
    ensures key == ConfigDefaultKey <==> msg == "菜谱生成失败: No active exception to reraise"
    ensures key != ConfigDefaultKey <==> msg == "AI服务响应异常"
  {
    if key == ConfigDefaultKey then "菜谱生成失败: No active exception to reraise"
    else "AI服务响应异常"
  }

  /**
   * `generate_meal_plan`, as written. Without a key, or with the marker key, it plans from the
   * stored recipes; any other key goes to the API call, which never yields a plan.
   */
  function GenerateMealPlan(apiKey: Option<string>, days: int, prefs: seq<string>, allergies: seq<string>,
                            cuisine: Option<string>, budget: string, store: Option<seq<Recipe>>,
                            pick: (int, Meal) -> nat, dateOf: int -> string): (res: ServiceResult)
    ensures res.success <==> !Truthy(apiKey) || apiKey.value == UnsetKeyMarker
    ensures res.success ==> res == GenerateWithRealRecipes(days, prefs, QueryAvailableRecipes(store, prefs, allergies, cuisine, budget), pick, dateOf)
    ensures !res.success ==> res.data.None?
  {
    var pools := QueryAvailableRecipes(store, prefs, allergies, cuisine, budget);
    if !Truthy(apiKey) || apiKey.value == UnsetKeyMarker then
      GenerateWithRealRecipes(days, prefs, pools, pick, dateOf)
    else
      ServiceResult(false, None, CallApiFailure(apiKey.value))
  }

  /**
   * With the configuration's own default key the service never produces a plan: the default
   * differs from the marker the service checks, so the call to the AI service is attempted and
   * fails.
   */
  lemma DefaultConfigKeyFails(days: int, prefs: seq<string>, allergies: seq<string>, cuisine: Option<string>,
                              budget: string, store: Option<seq<Recipe>>, pick: (int, Meal) -> nat, dateOf: int -> string)
    ensures !GenerateMealPlan(Some(ConfigDefaultKey), days, prefs, allergies, cuisine, budget, store, pick, dateOf).success
    ensures GenerateMealPlan(Some(ConfigDefaultKey), days, prefs, allergies, cuisine, budget, store, pick, dateOf).message ==
      "菜谱生成失败: No active exception to reraise"
  {
    assert ConfigDefaultKey != UnsetKeyMarker;
  }

  /** A key that is a placeholder rather than a real credential. */
  predicate IsPlaceholderKey(k: Option<string>) {
    !Truthy(k) || k.value == UnsetKeyMarker || k.value == ConfigDefaultKey
  }

  /** `generate_meal_plan` with the configuration's default also recognised as "no key". */
  function GenerateMealPlanFixed(apiKey: Option<string>, days: int, prefs: seq<string>, allergies: seq<string>,
                                 cuisine: Option<string>, budget: string, store: Option<seq<Recipe>>,
                                 pick: (int, Meal) -> nat, dateOf: int -> string): (res: ServiceResult)
    ensures res.success <==> IsPlaceholderKey(apiKey)
    ensures res.success ==> res == GenerateWithRealRecipes(days, prefs, QueryAvailableRecipes(store, prefs, allergies, cuisine, budget), pick, dateOf)
    ensures !res.success ==> res.data.None? && res.message == "AI服务响应异常"
  {
    var pools := QueryAvailableRecipes(store, prefs, allergies, cuisine, budget);
    if IsPlaceholderKey(apiKey) then GenerateWithRealRecipes(days, prefs, pools, pick, dateOf)
    else ServiceResult(false, None, "AI服务响应异常")
  }

  /** The corrected dispatch plans from stored recipes under the default configuration. */
  lemma DefaultConfigKeyPlans(days: int, prefs: seq<string>, allergies: seq<string>, cuisine: Option<string>,
                              budget: string, store: Option<seq<Recipe>>, pick: (int, Meal) -> nat, dateOf: int -> string)
    ensures GenerateMealPlanFixed(Some(ConfigDefaultKey), days, prefs, allergies, cuisine, budget, store, pick, dateOf).success
    ensures |GenerateMealPlanFixed(Some(ConfigDefaultKey), days, prefs, allergies, cuisine, budget, store, pick, dateOf).data.value.mealPlan| ==
      if days < 0 then 0 else days
  {
  }
}
