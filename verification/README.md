# easycook core, modelled in Dafny

easycook is a recipe and meal-planning backend: a Flask application over a relational store of
ingredients, recipes, users, pantries, shopping lists, preferences and favorites, plus a handful of
maintenance scripts. This project models its decision-making core as pure functions over immutable
data and proves what each piece promises.

- **Keyword filters** (`Keywords`, `RecipeFilter`). These are the static allergy, dietary and
  cuisine tables of the recipe query service. Each filter is defined twice: as the loop that
  scans a recipe's name, description and linked ingredient names, and as a declarative predicate.
  Lemmas prove the two equal and prove that filtering keeps an order-preserving subsequence, is
  idempotent, composes and commutes.
- **Query service** (`Recipes`, `StoreView`, `RecipeQuery`, `MealCategories`). This covers the
  store query with its `LIMIT` applied before the allergy and dietary filters, the record a recipe
  is formatted into for the planner, the ingredient-overlap and nutrition-goal searches, and the
  sorting of dishes into breakfast, lunch and dinner.
- **Meal planner** (`MealPlanner`, `MealPlanRoute`). This covers the budget ceiling, slot pools
  topped up to a threshold, the day-by-day plan built from an index oracle, the shopping list as a
  set union, the tips, the demo plan and the API-key dispatch. The route part covers how
  `/meal-plan/generate` validates and coerces its JSON body.
- **Record store and routes** (`RecordStore`, `IngredientRoutes`, `RecipeRoutes`, `UserRoutes`,
  `FavoriteRoutes`). Tables are maps keyed by autoincrement id, and composite keys are maps keyed
  by pairs. The model covers each handler's refusal conditions, its upserts, step renumbering,
  ingredient resolution by id, then name, then creation, and the rule that only the listed fields
  change.
- **Seeding** (`InitDb`, `SeedData`, `CollectRecipes`, `SeedChecks`). This covers the guarded
  three-commit seeding script with its name-based linking, the collection script's get-or-create
  and rollback, and what the keyword filters make of the seeded and collected recipes.
- **Scripts** (`FileNames`, `RecipeImages`, `ImageRewrite`, `RecipePhotos`, `DbManager`,
  `VercelDb`). This covers:
  - the file-name cleaner;
  - the SVG card's styling rules and description cut;
  - the image-URL rewrite and its second-run behaviour;
  - the photo downloader's content-type mapping and file choice;
  - the command parsers, the reset gate, the database URL scheme fix and the init status.

The network, the clock and randomness are parameters: the AI service's reply is an
`Option`, `random.choice` is an index oracle, `datetime.now` is a date function, and an HTTP
download is the content type answered for a URL. `Wrappers`, `Seqs` and `Text` hold the shared
`Option`, sequence and substring vocabulary; Python's `k in s` is `Text.Contains`.

## Model

| member | source | states |
|---|---|---|
| Seqs.Filter | backend/app/services/recipe_query_service.py:300-301 | a subsequence-shaped selection: no longer than the input, every element kept satisfies the test, and every element that satisfies it is kept |
| Seqs.Take | backend/app/services/recipe_query_service.py:60 | the first `n` elements, or all of them when there are fewer |
| Seqs.SortByKey | backend/app/services/recipe_query_service.py:204 | a permutation of the input, ordered by the key |
| Seqs.AddNew | backend/app/services/deepseek_service.py:307-327 | no repeats; every new element is added, only elements of either input appear, and the earlier ones keep their place |
| Seqs.RemoveFirst | backend/app/services/recipe_query_service.py:351 | an element that is present loses exactly one occurrence; an absent one leaves the list unchanged |
| Seqs.RemoveEach | backend/app/services/recipe_query_service.py:350-351 | removing present elements one by one removes exactly their occurrences |
| Seqs.Last | backend/app/services/recipe_query_service.py:355 | the last `n` elements, or all of them when there are fewer |
| Text.Lower | backend/app/services/recipe_query_service.py:326-327 | same length, with each ASCII capital replaced by its small letter and every other character kept |
| Keywords.AllergyKeywords | backend/app/services/recipe_query_service.py:259-277 | a tag the allergy table lists yields its table entry (at least three keywords); any other tag is its own only keyword |
| Keywords.AllergyTableDomain | backend/app/services/recipe_query_service.py:259-268 | exactly the eight tags nuts, dairy, eggs, seafood, shellfish, soy, wheat and sesame have an allergy entry |
| Keywords.CuisineTableDomain | backend/app/services/recipe_query_service.py:234-245 | a cuisine type has keywords exactly when it is one of the eight listed cuisines; any other gets the empty default |
| Keywords.VeganRefinesVegetarian | backend/app/services/recipe_query_service.py:371-379 | both rules exist and every keyword the vegetarian rule excludes is also excluded by the vegan rule |
| RecipeFilter.TextHitsKeywords | backend/app/services/recipe_query_service.py:278-281 | the keyword loop breaks with a hit exactly when some keyword occurs in the name or in the description read as empty when missing |
| RecipeFilter.TextHitsAllergies | backend/app/services/recipe_query_service.py:276-283 | the first phase finds a hit exactly when some keyword of some tag occurs in the name or description |
| RecipeFilter.NameHitsKeywords | backend/app/services/recipe_query_service.py:290-294 | the inner ingredient loop hits exactly when some keyword occurs in the ingredient name |
| RecipeFilter.NameHitsAllergies | backend/app/services/recipe_query_service.py:289-296 | one ingredient name hits exactly when it contains some keyword of some tag |
| RecipeFilter.LinksHitAllergies | backend/app/services/recipe_query_service.py:286-298 | the second phase hits exactly when some linked ingredient's name (empty for a dangling link) contains some keyword of some tag |
| RecipeFilter.ScanForAllergen | backend/app/services/recipe_query_service.py:272-298 | the two-phase scan with early exits decides the declarative "some tag's keyword is mentioned in name, description or an ingredient name" |
| RecipeFilter.FilterByAllergies | backend/app/services/recipe_query_service.py:248-303 | the result keeps exactly the recipes without an allergen, each only if it was an input, in input order (a subsequence) |
| RecipeFilter.AnyLinkContains | backend/app/services/recipe_query_service.py:413-417 | the ingredient loop for one keyword finds a hit exactly when some ingredient name contains it |
| RecipeFilter.NoExcludedKeyword | backend/app/services/recipe_query_service.py:406-420 | the exclude loop passes exactly when no exclude keyword is mentioned in name, description or an ingredient name |
| RecipeFilter.SomeRequiredKeyword | backend/app/services/recipe_query_service.py:428-442 | the include loop succeeds exactly when some required keyword is mentioned |
| RecipeFilter.ScanPreferences | backend/app/services/recipe_query_service.py:396-446 | the preference loop accepts exactly the recipes that satisfy the rule of every listed preference, skipping unlisted ones |
| RecipeFilter.FilterByDietaryPreferences | backend/app/services/recipe_query_service.py:360-451 | the result keeps exactly the recipes meeting every listed preference, in input order |
| RecipeFilter.HasAllergenAppend | backend/app/services/recipe_query_service.py:276-298 | an allergy list `a + b` finds an allergen exactly when `a` or `b` does |
| RecipeFilter.AllergyFiltersCompose | backend/app/services/recipe_query_service.py:248-303 | filtering by `a` and then by `b` equals one filter by `a + b` |
| RecipeFilter.AllergyFilterIdempotent | backend/app/services/recipe_query_service.py:248-303 | a second allergy filter with the same list changes nothing |
| RecipeFilter.NoAllergiesKeepsAll | backend/app/services/recipe_query_service.py:63-64 | an empty allergy list keeps every recipe, so the caller's skip of the filter for an empty list changes nothing |
| RecipeFilter.EmptyAllergyTagDropsAll | backend/app/services/recipe_query_service.py:277-280 | an empty-string tag is its own keyword and occurs in every name, so every recipe is dropped |
| RecipeFilter.MeetsPreferencesAppend | backend/app/services/recipe_query_service.py:399-446 | a preference list `p + q` is met exactly when both `p` and `q` are |
| RecipeFilter.DietaryFiltersCompose | backend/app/services/recipe_query_service.py:360-451 | filtering by `p` and then by `q` equals one filter by `p + q` |
| RecipeFilter.UnlistedPreferencesKeepAll | backend/app/services/recipe_query_service.py:400-401 | preferences absent from the table filter nothing out |
| RecipeFilter.AllergyAndDietaryFiltersCommute | backend/app/services/recipe_query_service.py:63-68 | applying the allergy filter before the preference filter gives the same list as the other order |
| RecipeFilter.VegetarianRejectsEggDish | backend/app/services/recipe_query_service.py:373-410 | 西红柿炒鸡蛋 fails the vegetarian rule, because the excluded 鸡 occurs inside 鸡蛋 |
| RecipeQuery.StepEntries | backend/app/services/recipe_query_service.py:203-208 | one step entry per stored step, carrying that step's number and text |
| RecipeQuery.FormatForAi | backend/app/services/recipe_query_service.py:181-221 | the record copies the recipe's scalar fields; one ingredient entry per link, in link order: a resolved link gives its ingredient's name and unit, a dangling one 未知食材 with an empty unit, each with the link's amount and its note or ""; the summary lists the entries' names; the steps are the recipe's steps reordered by step number |
| RecipeQuery.SummaryShowsAllergen | backend/app/services/recipe_query_service.py:286-298 | an allergy keyword inside the summary name of a resolved link means the allergy filter rejects the recipe, so no surviving record shows one |
| RecipeQuery.FormatAll | backend/app/services/recipe_query_service.py:70 | one formatted record per recipe, position by position |
| RecipeQuery.FormatAllKeepsSubsequence | backend/app/services/recipe_query_service.py:70 | formatting keeps the subsequence relation between two recipe lists |
| RecipeQuery.CuisineScan | backend/app/services/recipe_query_service.py:38-45 | the OR of name-LIKE and description-LIKE conditions over the cuisine keywords holds exactly when some keyword is in the name or the non-NULL description |
| RecipeQuery.StoreRows | backend/app/services/recipe_query_service.py:35-60 | at most `limit` rows, each stored and matching every truthy criterion, in storage order; fewer than `limit` only when every matching row was taken |
| RecipeQuery.SelectByCriteria | backend/app/services/recipe_query_service.py:60-68 | the fetched rows without an allergen and meeting every preference, no more than `limit`, in storage order; every fetched row that passes both filters stays |
| RecipeQuery.SubsequenceLength | backend/app/services/recipe_query_service.py:60-68 | filtering the fetched rows never lengthens them |
| RecipeQuery.SearchRecipesByCriteria | backend/app/services/recipe_query_service.py:11-70 | at most `limit` records, each the formatted form of a stored recipe that qualifies; every fetched row that passes both filters appears formatted; the records keep storage order |
| RecipeQuery.LimitAppliesBeforeAllergyFilter | backend/app/services/recipe_query_service.py:60-64 | with limit 1 and a nut allergy, a store of 花生酥 then 清蒸鱼 yields nothing although 清蒸鱼 qualifies: the limit is applied before the allergy filter |
| RecipeQuery.RecipesByIngredients | backend/app/services/recipe_query_service.py:73-98 | an empty list gives nothing; otherwise the AI records of at most `limit` stored recipes, each linked to an ingredient whose exact name is available, in storage order and each once (a subsequence of the formatted store); fewer than `limit` only when all such recipes were taken |
| RecipeQuery.MoreIngredientsFindMore | backend/app/services/recipe_query_service.py:85-98 | while the limit cuts nothing off, offering more ingredients never loses a recommended recipe |
| RecipeQuery.RecipesByNutritionGoals | backend/app/services/recipe_query_service.py:123-178 | the AI records of at most `limit` stored recipes meeting the selected goals, in storage order and each once (a subsequence of the formatted store); fewer only when all such recipes were taken; with no goal, the records of the first `limit` stored recipes |
| RecipeQuery.NullDescriptionFailsAvoidGoals | backend/app/services/recipe_query_service.py:159-171 | under the low-carb or low-fat goal, a recipe with a NULL description never qualifies, since `NOT (NULL LIKE ...)` is not true |
| MealCategories.Partition | backend/app/services/recipe_query_service.py:322-339 | every record lands in exactly the buckets of the meal it is classified as, and the buckets hold nothing else |
| MealCategories.SimpleToMove | backend/app/services/recipe_query_service.py:347-349 | at most two lunch dishes, all simple and taken from lunch without exceeding its multiplicities; none only when lunch has no simple dish |
| MealCategories.RemoveMovedFacts | backend/app/services/recipe_query_service.py:350-351 | removing the moved dishes one occurrence each loses no dish: a dish is moved or still in lunch exactly when it was in lunch |
| MealCategories.MoveSimpleDishes | backend/app/services/recipe_query_service.py:345-351 | one or two simple lunch dishes move to the empty breakfast; breakfast and lunch together keep exactly the old lunch dishes; dinner is untouched |
| MealCategories.FillBreakfast | backend/app/services/recipe_query_service.py:345-351 | nothing changes when breakfast already has dishes or lunch is empty; otherwise up to two simple lunch dishes move to breakfast: breakfast and lunch together keep their dishes with multiplicity, dinner is untouched, and breakfast stays empty only when lunch has no simple dish |
| MealCategories.FillDinner | backend/app/services/recipe_query_service.py:353-355 | an empty dinner receives copies of the last two lunch dishes (fewer if lunch is shorter); otherwise nothing changes |
| MealCategories.Rebalance | backend/app/services/recipe_query_service.py:341-355 | the rebalanced buckets hold exactly the classified dishes; breakfast and lunch together keep their dishes with multiplicity; breakfast holds breakfast dishes or simple lunch dishes; lunch holds only lunch dishes; an empty dinner becomes the last two lunch dishes and a non-empty one is kept |
| MealCategories.CategorizeByMeal | backend/app/services/recipe_query_service.py:306-357 | the buckets hold exactly the formatted input recipes; breakfast, lunch and the first pass's dinner hold them with multiplicity; dinner is the first pass's when non-empty, else the last two lunch dishes; the placement guarantees of the rebalance hold against the keyword and cooking-time classification |
| MealCategories.SimpleLunchFillsBreakfast | backend/app/services/recipe_query_service.py:345-351 | a simple dish classified as lunch means breakfast is never left empty |
| MealCategories.EggDishIsBreakfast | backend/app/services/recipe_query_service.py:330 | a dish whose name contains 蛋 is classified as breakfast whatever its category or cooking time |
| MealPlanner.CookingTimeCeiling | backend/app/services/deepseek_service.py:187-192 | the time ceiling is 30 exactly for the low budget, 120 exactly for the high budget, and 60 for every other level |
| MealPlanner.TopUp | backend/app/services/deepseek_service.py:223-231 | a pool at or above the threshold is unchanged; a shorter pool keeps its items first and gains extra results, in order, up to the threshold |
| MealPlanner.TopUpMembers | backend/app/services/deepseek_service.py:223-251 | every item of a topped-up pool comes from the slot's own search or from the extra search |
| MealPlanner.SearchResultsPoolable | backend/app/services/deepseek_service.py:195-221 | every record a search with a positive time ceiling returns is a stored, allergen-free, preference-meeting recipe within any larger ceiling |
| MealPlanner.SlotPool | backend/app/services/deepseek_service.py:195-251 | a slot's pool starts with its own search's records, unchanged, and continues with the extra search's records in order until it reaches the threshold or they run out; never more than its own search's limit; every item is poolable under the budget's ceiling |
| MealPlanner.QueryAvailableRecipes | backend/app/services/deepseek_service.py:167-265 | a failing store yields three empty pools; otherwise breakfast is the 早餐 search (limit 10) topped up to 5 from a 30-minute search without category, and lunch and dinner are the 午餐 and 晚餐 searches (limit 15) topped up to 8 from the search without category; so at most 10, 15 and 15 records, each a stored recipe free of the allergens, meeting the preferences and within the budget's time ceiling |
| MealPlanner.StoredBreakfastIsPooled | backend/app/services/deepseek_service.py:195-232 | with no preference, allergy or cuisine, a stored 早餐 recipe within the budget's time ceiling leaves the breakfast pool non-empty |
| MealPlanner.RealMeal | backend/app/services/deepseek_service.py:317-327 | a pooled meal carries the recipe's id, name, ingredient summary and difficulty, the slot's calories (350, 500 or 450), and its own cooking time as preparation time, or the slot's default when the time is missing or zero |
| MealPlanner.Placeholder | backend/app/services/deepseek_service.py:328-338 | the meal of an empty pool has no recipe id, keeps its slot, and carries the slot's fixed name for the day, its three fixed ingredients, 10, 25 or 30 minutes, the slot's calories and the difficulty 简单 for breakfast, 中等 otherwise |
| MealPlanner.ChooseMeal | backend/app/services/deepseek_service.py:315-388 | a slot's meal is made from some record of its pool, or is the placeholder exactly when the pool is empty |
| MealPlanner.PlanDay | backend/app/services/deepseek_service.py:310-394 | a day carries its number, the clock's date for that day, and breakfast, lunch and dinner in that order, each drawn from its own pool |
| MealPlanner.PlanDays | backend/app/services/deepseek_service.py:310 | days 1 to n, each well formed; no day for n of zero or less |
| MealPlanner.AllIngredients | backend/app/services/deepseek_service.py:327-378 | every ingredient of every planned meal is collected, and nothing else |
| MealPlanner.MealIngredients | backend/app/services/deepseek_service.py:327-378 | every ingredient of a day's meals is collected, and nothing else |
| MealPlanner.ShoppingList | backend/app/services/deepseek_service.py:307-397 | the shopping list has no repeats and holds exactly the collected ingredients |
| MealPlanner.ShoppingListIsUnion | backend/app/services/deepseek_service.py:307-397 | every ingredient of every planned meal is on the list, and every listed item is some planned meal's ingredient |
| MealPlanner.Tips | backend/app/services/deepseek_service.py:400-413 | the three base tips come first; each preference tip appears exactly when its preference was asked for; the length counts them |
| MealPlanner.GenerateWithRealRecipes | backend/app/services/deepseek_service.py:278-429 | always a success, with the requested number of well-formed days, the shopping list of those days, the tips of the preferences and 1300 kcal per day |
| MealPlanner.EmptyBreakfastPoolBuysOats | backend/app/services/deepseek_service.py:328-397 | with an empty breakfast pool, the placeholder breakfast's 燕麦片 is on the shopping list |
| MealPlanner.TwoDigits | backend/app/services/deepseek_service.py:613 | only decimal digits; exactly two for a number below 10, which alone start with '0'; at least two otherwise |
| MealPlanner.TwoDigitsValue | backend/app/services/deepseek_service.py:613 | the padded digits read back as the day number |
| Text.NatToStringValue | backend/app/services/deepseek_service.py:613 | the decimal digits of a number read back as that number, and only a number below 10 can start with '0' |
| MealPlanner.MockDays | backend/app/services/deepseek_service.py:609-637 | the generated demo days run from day 3 to the requested day, three meals each; none when fewer than three days are asked |
| MealPlanner.MockPlanDays | backend/app/services/deepseek_service.py:531-637 | the demo plan numbers its days from 1, three meals each, with at least the two fixed days |
| MealPlanner.MockMealPlan | backend/app/services/deepseek_service.py:524-643 | the demo answer is a success whose days are the demo days, priced at 1250 kcal per requested day, with the base tips plus the tip about adjusting seasoning, the fixed demo shopping list, the fixed protein, carbs and fat notes and the demo message |
| MealPlanner.MockListCoversFixedDays | backend/app/services/deepseek_service.py:531-593 | every ingredient of the two fixed demo days is on the demo shopping list |
| MealPlanner.MockPlanHasAtLeastTwoDays | backend/app/services/deepseek_service.py:531-611 | the demo plan has at least two days, and exactly two when one day is requested |
| MealPlanner.PromptEntries | backend/app/services/deepseek_service.py:475-497 | the prompt shows the first ten records of a pool (all when fewer), each with its name, its first five ingredients (all when fewer) and an ellipsis exactly when some were cut |
| MealPlanner.PromptShowsShortListWhole | backend/app/services/deepseek_service.py:477 | a record with at most five ingredients is shown whole without '...'; a longer one shows its first five and '...' |
| MealPlanner.CallApiFailure | backend/app/services/deepseek_service.py:268-275 | for the configuration's default key the message is "菜谱生成失败: No active exception to reraise"; for every other configured key it is "AI服务响应异常" |
| MealPlanner.GenerateMealPlan | backend/app/services/deepseek_service.py:11-81 | the service succeeds exactly when the key is unset, empty or the marker `your-deepseek-api-key-here`, and then answers with the plan from the stored recipes; a failure carries no data |
| MealPlanner.DefaultConfigKeyFails | backend/config.py:24 | under the configuration's default key the service fails with "菜谱生成失败: No active exception to reraise" |
| MealPlanner.GenerateMealPlanFixed | backend/app/services/deepseek_service.py:35 | with the default key also treated as unset, the service succeeds exactly for placeholder keys and plans from the stored recipes |
| MealPlanner.DefaultConfigKeyPlans | backend/config.py:24 | the corrected dispatch plans the requested number of days under the configuration's default key |
| MealPlanRoute.ValidDays | backend/app/routes/meal_plan.py:31-36 | `days` passes exactly when it is an integer from 1 to 14 or the boolean true (an int subclass, read as 1); the accepted value is that integer |
| MealPlanRoute.DaysBoundaryCases | backend/app/routes/meal_plan.py:32 | 0, 15, the string "3" and the float 3.0 are refused; 1, 14 and true are accepted; a missing field is refused |
| MealPlanRoute.StringItems | backend/app/routes/meal_plan.py:39-40 | a list of strings is passed on item for item |
| MealPlanRoute.ListField | backend/app/routes/meal_plan.py:39-48 | a missing or non-list field becomes the empty list; a list of strings is kept as it is |
| MealPlanRoute.BudgetField | backend/app/routes/meal_plan.py:42-50 | the budget is one of low, medium and high: the given level when it is one of them, medium otherwise |
| MealPlanRoute.CuisineField | backend/app/routes/meal_plan.py:41 | a string cuisine is passed on unchanged |
| MealPlanRoute.ParseRequest | backend/app/routes/meal_plan.py:20-71 | 400 exactly for a missing or falsy body or an object whose `days` is invalid; 500 exactly for a truthy body that is not an object; an accepted request carries the body's `days`, its string items of `dietary_preferences` and `allergies`, its cuisine and its budget, with 1 to 14 days and a known budget |
| MealPlanRoute.GenerateRoute | backend/app/routes/meal_plan.py:6-71 | the answer is 200 exactly on success, else 400 or 500; 400 exactly for a refused body; success exactly for an accepted body with an unset key, and then a plan of as many days as the body's `days` |
| MealPlanRoute.NonListAllergiesIgnored | backend/app/routes/meal_plan.py:47-48 | a string `allergies` field is replaced by the empty list |
| MealPlanRoute.OfferedOptionsHaveTables | backend/app/routes/meal_plan.py:79-109 | every offered allergy and cuisine has a keyword table in the query service; of the offered diets, exactly gluten-free, keto and mediterranean have no rule |
| MealPlanRoute.RulelessOffersFilterNothing | backend/app/routes/meal_plan.py:86-88 | choosing gluten-free, keto or mediterranean filters no recipe out |
| RecordStore.EmptyTable | backend/init_db.py:17 | a freshly created table holds no row and is valid |
| RecordStore.Insert | backend/app/routes/ingredient.py:56-57 | an insert stores the row under a key no row had, keeps every old row under its key, and advances the key counter |
| RecordStore.First | backend/app/routes/ingredient.py:44 | `filter_by(...).first()` finds the earliest inserted matching row, and nothing exactly when no row matches |
| RecordStore.Where | backend/app/routes/ingredient.py:103 | `filter(...).all()` lists every matching key once, ascending, and nothing else |
| RecordStore.PerPage | backend/app/routes/ingredient.py:10 | the page size is the requested one, capped |
| RecordStore.Paginate | backend/app/routes/ingredient.py:18-26 | a page exists exactly for a page number and size of at least 1 that is the first page or starts inside the listing (else a 404); it shows the rows from position (page-1)*per_page on, at most per_page of them, with the listing's total and ceil(total/per_page) pages |
| RecordStore.ListPage | backend/app/routes/ingredient.py:9-18 | the route's page and per_page arguments, defaulted and capped, passed to the paginator: a 404 exactly when the paginator has none; otherwise a subsequence of the listing, no longer than the cap, with the listing's total |
| RecordStore.RowOnItsPage | backend/app/routes/ingredient.py:18 | row i of a listing is shown on page i / per_page + 1, at position i % per_page |
| RecordStore.PagesThatExist | backend/app/routes/ingredient.py:18-24 | on a non-empty listing exactly the pages 1 to `pages` exist |
| RecordStore.EveryRowListed | backend/app/routes/ingredient.py:9-18 | with a usable page size every row of a listing is on some page the route serves |
| RecordStore.OnePageHoldsAll | backend/app/routes/ingredient.py:18-24 | a page size covering the listing puts every row on page 1, with one page (none for an empty listing) |
| RecordStore.DistinctValues | backend/app/routes/ingredient.py:91-92 | the distinct non-empty values of a column: no repeats, and a value is listed exactly when some row holds it |
| RecordStore.FindByName | backend/app/routes/ingredient.py:44 | a name lookup finds a row of that name, and nothing exactly when no row has it |
| RecordStore.ResolveIngredient | backend/app/routes/recipe.py:78-96 | an id naming a row is used as it is; otherwise a name finds its first row or creates one row with that name, unit and category; with neither nothing resolves; no existing row changes |
| RecordStore.ResolveByNameIsStable | backend/app/routes/recipe.py:84-96 | resolving the same name again finds the row the first resolution used and creates nothing |
| StoreView.AsLinks | backend/app/models/ingredient.py:26-43 | one link object per stored link, in order, resolving to its ingredient row when that row exists and to nothing otherwise |
| StoreView.AsSteps | backend/app/models/recipe.py:39-56 | one step object per stored step, carrying its number, text and image |
| IngredientRoutes.ListIngredients | backend/app/routes/ingredient.py:6-26 | the requested page (default 1) of the rows of the given category (all rows for a falsy one), with the page size defaulting to 20 and capped at 100; the total counts the whole listing; a page below 1 or past the end is a 404 |
| IngredientRoutes.EveryIngredientListed | backend/app/routes/ingredient.py:6-26 | with a usable page size every ingredient of the category is on some page |
| IngredientRoutes.CreateIngredient | backend/app/routes/ingredient.py:34-59 | 400 exactly when the name is missing or already taken; 500 exactly for a `null` name, which the NOT NULL column refuses; both leave the store as it was; otherwise 201 and one new row with the given fields under a fresh key, nothing else changed |
| IngredientRoutes.CreateKeepsNamesUnique | backend/app/routes/ingredient.py:43-46 | creating ingredients never produces two with the same name |
| IngredientRoutes.UpdateIngredient | backend/app/routes/ingredient.py:61-73 | 404 exactly for an unknown id; 500 with nothing changed exactly for a `null` name; otherwise each field present in the body replaces its column, every other column and row unchanged |
| IngredientRoutes.EmptyPatchChangesNothing | backend/app/routes/ingredient.py:67-70 | a body without any of the four fields leaves the store as it is |
| IngredientRoutes.DeleteIngredient | backend/app/routes/ingredient.py:75-86 | 404 for an unknown id; 400 exactly while some recipe links the ingredient; 500 with nothing deleted exactly when, otherwise, a pantry row holds it; else 204 and only that row is removed |
| IngredientRoutes.DeleteLeavesNoDanglingPantry | backend/app/models/ingredient.py:15 | a delete that succeeds leaves no pantry row pointing at the removed ingredient |
| IngredientRoutes.IngredientCategories | backend/app/routes/ingredient.py:88-92 | every non-empty category of a stored ingredient, each once |
| IngredientRoutes.SearchIngredients | backend/app/routes/ingredient.py:94-105 | 400 exactly for an empty query; otherwise exactly the rows whose name contains it |
| RecipeRoutes.MissingField | backend/app/routes/recipe.py:44-47 | nothing is missing exactly when all six required fields are present; a missing name is reported first |
| RecipeRoutes.Renumber | backend/app/routes/recipe.py:64-72 | the stored steps are the submitted ones in order, numbered from 1 by position, with an absent description stored as empty |
| RecipeRoutes.ClientNumbersIgnored | backend/app/routes/recipe.py:68 | two step lists that differ only in the numbers the client put on them store the same steps |
| RecipeRoutes.ResolveLinks | backend/app/routes/recipe.py:75-105 | one outcome per ingredient line: a line with a known id links that ingredient; otherwise a line with a name links an existing or new ingredient of that name; amount defaults to 0 and the note is kept; a line with neither is skipped; no existing ingredient changes |
| RecipeRoutes.Somes | backend/app/routes/recipe.py:98-105 | the links stored are the resolved lines, in order, skipped lines dropped |
| RecipeRoutes.CreateRecipe | backend/app/routes/recipe.py:38-108 | 400 exactly when a required field is missing; 500 with nothing stored exactly when the resolved lines link one ingredient twice; otherwise 201 and a new recipe with the given columns, renumbered steps and resolved links, all of whose ingredients are stored |
| RecipeRoutes.UpdateRecipe | backend/app/routes/recipe.py:110-174 | 404 exactly for an unknown id; on success only that recipe changes: present fields replace columns, a step list replaces and renumbers the steps, an ingredient list replaces the links with exactly the ingredients its lines resolve to; 500 with nothing stored exactly when those resolved lines link one ingredient twice; absent lists keep the old ones |
| RecipeRoutes.DeleteRecipe | backend/app/routes/recipe.py:176-182 | 404 exactly for an unknown id; otherwise 204 and only that recipe, with its steps and links, is gone |
| RecipeRoutes.ListRecipes | backend/app/routes/recipe.py:7-30 | the requested page of the rows passing the truthy category and difficulty filters, newest first, with the page size defaulting to 10 and capped at 50; a page below 1 or past the end is a 404 |
| RecipeRoutes.FirstPageStartsNewest | backend/app/routes/recipe.py:22 | when some recipe passes the filters, the first page starts with the newest of them |
| RecipeRoutes.RecipeCategories | backend/app/routes/recipe.py:184-188 | every non-empty category of a stored recipe, each once |
| RecipeRoutes.SearchRecipes | backend/app/routes/recipe.py:190-214 | 400 exactly for an empty query; otherwise the requested page of the rows whose name or non-null description contains it, or a 404 for a page that does not exist |
| UserRoutes.CreateUser | backend/app/routes/user.py:9-33 | 400 exactly when a required field is missing or the username or e-mail is already stored, leaving the store as it was; otherwise 201 and exactly one new user with that username and e-mail and no Google id |
| UserRoutes.CreateUserKeepsUnique | backend/app/routes/user.py:20-24 | creating users never produces two with the same username or the same e-mail |
| UserRoutes.MergePantry | backend/app/routes/user.py:87-100 | an existing row keeps whatever the body leaves out; a given amount, and a non-empty expiry date, replace the stored one; a new row has nothing the body leaves out |
| UserRoutes.AddUserIngredient | backend/app/routes/user.py:50-104 | 404 for an unknown user or, without a name, an unknown id; 400 when the body names no ingredient; 500 with nothing stored exactly when an ingredient resolves but a given expiry date is no calendar date; 201 when a name is given, or the id is known, and the date parses, a known id linking that very ingredient and a name-resolved row carrying the name; on 201 only ingredients may be added and the one row for the pair is upserted |
| UserRoutes.BadExpiryStoresNothing | backend/app/routes/user.py:89-100 | an expiry of 2023-02-29 answers 500 and stores nothing, not even a new ingredient |
| Text.LeapDayIsChecked | backend/app/routes/user.py:92 | 2024-02-29 is a calendar date; 2023-02-29, month 13, a one-digit month and year 0 are not |
| UserRoutes.PantryUpsertKeepsOneRow | backend/app/routes/user.py:82-92 | adding the same ingredient by name twice resolves to the same ingredient, leaves one row for the pair and keeps the second amount |
| UserRoutes.DeleteUserIngredient | backend/app/routes/user.py:106-115 | 404 exactly when the user holds no row for the ingredient; otherwise 204 and only that row goes |
| UserRoutes.AddedIngredientIsListed | backend/app/routes/user.py:42-48 | after a successful add, the user's pantry listing holds the ingredient |
| UserRoutes.DeletedIngredientIsUnlisted | backend/app/routes/user.py:106-115 | after the delete, the user's listing lacks the ingredient and every other user's listing is unchanged |
| UserRoutes.UserIngredients | backend/app/routes/user.py:42-48 | nothing for an unknown user; otherwise exactly the ingredients of the user's pantry rows |
| UserRoutes.AddItems | backend/app/routes/user.py:141-169 | for each line naming an ingredient by name or by a stored id, one new item of the list, in line order and repeats kept, carrying the line's amount and purchased flag (false by default) and the ingredient the id names, else a row with the line's name; lines with neither make nothing; no other item appears |
| UserRoutes.CreateShoppingList | backend/app/routes/user.py:126-172 | 404 exactly for an unknown user; otherwise one new list, named as given or, for a missing or `null` name, with the column default 购物清单, whose new items are exactly those the lines make, as for AddItems; nothing but lists, items and ingredients changes |
| UserRoutes.NewListKeepsRepeats | backend/app/routes/user.py:141-169 | two lines naming the same ingredient give two items, since a new list does not merge repeats |
| UserRoutes.ItemFor | backend/app/routes/user.py:212-215 | the item of the list for the ingredient, and nothing exactly when the list has none |
| UserRoutes.PatchItem | backend/app/routes/user.py:217-222 | the item keeps its list and ingredient; each field given replaces the stored one, and each field left out is kept |
| UserRoutes.AddShoppingListItem | backend/app/routes/user.py:180-234 | 404 for an unknown list, 400 without an ingredient reference, 201 exactly when a name or a stored id is given, else 404; the list's item for the resolved ingredient (the id named, else the row of that name) is patched in place, otherwise one new item for it is added with the given amount and flag |
| UserRoutes.SecondPostPatches | backend/app/routes/user.py:212-222 | posting the same ingredient name to a list twice answers with the same item, creates no row and no ingredient, and patches the item's amount and flag |
| UserRoutes.UpdateShoppingListItem | backend/app/routes/user.py:236-249 | 404 exactly for an unknown item; otherwise only that item changes, patched by the given fields |
| UserRoutes.DeleteShoppingListItem | backend/app/routes/user.py:251-257 | 404 exactly for an unknown item; otherwise 204 and only that item goes |
| UserRoutes.UserShoppingLists | backend/app/routes/user.py:118-124 | nothing for an unknown user; otherwise exactly the user's lists |
| UserRoutes.AddUserPreference | backend/app/routes/user.py:268-298 | 404 exactly for an unknown user; 400 exactly when a key is missing or the same type and value is already stored for the user; 500 exactly when both keys are there and one is `null`, which the NOT NULL columns refuse; otherwise 201 and one new row; no other answer |
| UserRoutes.AddPreferenceKeepsUnique | backend/app/routes/user.py:280-286 | adding preferences never stores the same one twice |
| UserRoutes.DeleteUserPreference | backend/app/routes/user.py:300-306 | 404 exactly for an unknown preference; otherwise 204 and only that row goes |
| UserRoutes.UserPreferences | backend/app/routes/user.py:260-266 | nothing for an unknown user; otherwise exactly the user's preferences |
| FavoriteRoutes.FavoriteOf | backend/app/routes/favorite.py:48-50 | the row holding the pair, and nothing exactly when no row does |
| FavoriteRoutes.AddFavorite | backend/app/routes/favorite.py:34-64 | 404 exactly for an unknown user, an unknown recipe or a `null` recipe id, which `get_or_404` cannot load; 400 exactly when the recipe id key is missing or the pair is already stored; otherwise 201 and one new row for the pair |
| FavoriteRoutes.RemoveFavorite | backend/app/routes/favorite.py:66-76 | 404 exactly when the pair is not stored; otherwise 204 and only the first row of the pair goes |
| FavoriteRoutes.IsFavorite | backend/app/routes/favorite.py:78-85 | true exactly when some row holds the pair |
| FavoriteRoutes.AddKeepsPairsUnique | backend/app/models/favorite.py:17 | adding favorites keeps every (user, recipe) pair in at most one row |
| FavoriteRoutes.RemoveKeepsPairsUnique | backend/app/models/favorite.py:17 | removing favorites keeps the pairs unique |
| FavoriteRoutes.AddThenCheck | backend/app/routes/favorite.py:34-85 | after adding a favorite for a known user and recipe, the check reports it, whether it was new or already there |
| FavoriteRoutes.RemoveThenCheck | backend/app/routes/favorite.py:66-85 | with unique pairs, after a removal the check reports the pair as no favorite |
| FavoriteRoutes.ListFavorites | backend/app/routes/favorite.py:8-32 | 404 for an unknown user; otherwise the requested page of the user's favorites, newest first, with the total, the page size defaulting to 10 and capped at 50; a page past the end is a 404 |
| FavoriteRoutes.EveryFavoriteListed | backend/app/routes/favorite.py:8-32 | with a usable page size every favorite of the user is on some page |
| InitDb.InsertAll | backend/init_db.py:302-303 | rows added one after another receive consecutive fresh keys in order; every row stored before stays, and no other key appears |
| InitDb.ByName | backend/init_db.py:316-325 | every row made comes from an entry whose name was found, never more rows than entries; when every name is found there is one row per entry, in order |
| InitDb.ByNameFound | backend/init_db.py:316-325 | an entry whose name is found has its row among those made, whatever the other entries |
| InitDb.SeededNameFound | backend/init_db.py:28-78 | on a table that held no ingredient, the seeded table finds a name exactly when it is one of the seed ingredient names |
| InitDb.SeedLinks | backend/init_db.py:316-325 | every link points at a stored ingredient carrying the entry's name, amount and note; an entry whose name is missing yields no link, and with every name found each entry gets its link in order |
| InitDb.SeedSteps | backend/init_db.py:306-313 | one step row per seed step, keeping the number, text and image the seed gives |
| InitDb.SeedRecipeRow | backend/init_db.py:294-301 | the stored recipe carries the seed's name, description, time, difficulty, category and image, no servings, its steps and its resolved links |
| InitDb.Stock | backend/init_db.py:375-384 | the pantry keeps every earlier row and every other user's row as it was, holds a row for each entry's ingredient, and adds only rows of the user for an entry's ingredient |
| InitDb.RecipeByName | backend/init_db.py:436 | the recipe found carries the name, and nothing is found exactly when no stored recipe carries it |
| InitDb.FavoriteRows | backend/init_db.py:435-443 | at most one favorite per listed name, each of the given user and pointing at a stored recipe with a listed name |
| InitDb.FavoriteFound | backend/init_db.py:435-443 | a listed name the store has gives the user a favorite of the first recipe with that name |
| InitDb.AllFavoriteRows | backend/init_db.py:427-480 | every favorite belongs to one of the seed users whose list it came from and points at a stored recipe |
| InitDb.AllFavoritesKept | backend/init_db.py:427-480 | every favorite of a seed user's own list is among the seeded favorites |
| InitDb.StockEntries | backend/init_db.py:375-384 | each entry is some stock line's ingredient, found by name, with that line's amount and its expiry `days` on; every line whose name is stored gets its entry |
| InitDb.ItemRows | backend/init_db.py:401-410 | each item is on the new list and is some seed item's ingredient, found by name, with that item's amount and flag; every seed item whose name is stored gets its row |
| InitDb.SeedCatalog | backend/init_db.py:28-327 | the first two commits add the seed ingredients, then the seed recipes linked against them, and change no other table |
| InitDb.SeedAccounts | backend/init_db.py:331-482 | the third commit leaves ingredients and recipes alone; it adds the users with their Google ids, then the first user's pantry, one list named as given with its items, and preferences, then each user's favorites |
| InitDb.Seed | backend/init_db.py:17-25 | skipped exactly when some ingredient is stored; fails after the first two commits exactly when a stored user shares a username, an e-mail or a Google id with a seed user, since those columns are unique; otherwise all three commits stand |
| InitDb.SeedingTwiceSkips | backend/init_db.py:22-25 | once a run was not skipped, every later run is skipped, even one following a failed third commit |
| InitDb.SeededNamesResolve | backend/init_db.py:28-78 | after a run that was not skipped, a name finds an ingredient exactly when it is a seed ingredient name |
| InitDb.SeedKeepsCatalog | backend/init_db.py:327 | a run that was not skipped keeps the first two commits' ingredients and recipes, whether or not the third commit went through |
| InitDb.SeededRecipeStored | backend/init_db.py:293-325 | after a run, seed recipe `i` is stored under the i-th new key with its name, its resolved links, and its steps numbered as the seed numbers them |
| InitDb.SeededRowsBelongToSeedUsers | backend/init_db.py:364-480 | every pantry row, list item, preference and favorite the third commit adds belongs to a new seed user and points at a stored ingredient or recipe |
| InitDb.AddedUsersUnique | backend/app/models/user.py:10-14 | seed users that clash neither with stored users nor with one another keep usernames, e-mails and Google ids unique |
| InitDb.SeedingKeepsUsersUnique | backend/init_db.py:352-362 | a run whose third commit goes through leaves usernames, e-mails and Google ids unique |
| InitDb.UnlistedHeadDropped | backend/init_db.py:316-318 | on an empty store, a seed recipe whose first ingredient name is not a seed ingredient, but whose other names are, is stored with one link fewer than entries |
| InitDb.UnknownHeadIsDropped | backend/init_db.py:317-318 | an entry whose name is missing is skipped; when it is the only such entry, one link fewer than entries remains |
| SeedData.TheSeedsWellFormed | backend/init_db.py:331-350 | the script's three users have pairwise different usernames and e-mails, and each has a favorites list |
| SeedData.StoredGoogleIdFailsSeed | backend/app/models/user.py:14 | a stored account holding the seed Google id "google_123456789" makes the seeding of an empty catalog fail, whatever its username and e-mail |
| SeedData.FishNotListed | backend/init_db.py:28-78 | "鱼" (fish) is not one of the seed ingredient names |
| SeedData.RibsNotListed | backend/init_db.py:28-78 | "排骨" (spare ribs) is not one of the seed ingredient names |
| SeedData.BraisedFishLosesFish | backend/init_db.py:196-220 | seeding an empty store keeps 红烧鱼 with 7 of its 8 ingredient lines, because its fish finds no ingredient |
| SeedData.SteamedBassLosesFish | backend/init_db.py:245-267 | seeding an empty store keeps 清蒸鲈鱼 with 5 of its 6 ingredient lines, because its fish finds no ingredient |
| SeedData.SweetSourRibsLoseRibs | backend/init_db.py:268-290 | seeding an empty store keeps 糖醋排骨 with 5 of its 6 ingredient lines, because its ribs find no ingredient |
| CollectRecipes.GetOrCreate | backend/collect_recipes.py:322-333 | the name finds the returned id afterwards; a stored name returns the first match and changes nothing; otherwise exactly one row is added, filed under "其他"; every earlier find is kept |
| CollectRecipes.ResolveSamples | backend/collect_recipes.py:367-371 | every entry's name finds, in the final table, the id listed for it; rows only get added, and earlier finds are kept |
| CollectRecipes.SameIdIffSameName | backend/collect_recipes.py:367-375 | two entries resolve to the same ingredient exactly when they carry the same name |
| CollectRecipes.SampleLinks | backend/collect_recipes.py:373-378 | one link per entry, in order, with the resolved ingredient, the amount defaulting to 0 and the note defaulting to "" |
| CollectRecipes.NumberSteps | backend/collect_recipes.py:358-364 | one step per text, in order, numbered from the given start |
| CollectRecipes.SaveRecipe | backend/collect_recipes.py:335-388 | refused, with the store unchanged, exactly when the name is stored or the entries repeat an ingredient, which breaks the link key and rolls everything back; otherwise one new recipe carrying the defaults, steps numbered from 1 and one link per entry to an ingredient of that name |
| CollectRecipes.SettledStays | backend/collect_recipes.py:339-342 | stored recipes are never removed, so a sample refused once stays refused |
| CollectRecipes.SaveSettles | backend/collect_recipes.py:339-342 | after a save the same sample would be refused |
| CollectRecipes.Collect | backend/collect_recipes.py:390-402 | the count is the number of recipes added and at most the number of samples; afterwards every sample would be refused; when all would already be refused, nothing changes and the count is 0 |
| CollectRecipes.CollectTwiceSavesNothing | backend/collect_recipes.py:390-402 | a second collection saves nothing and changes nothing |
| SeedChecks.PepperIsNoNut | backend/app/services/recipe_query_service.py:260 | "花椒" (Sichuan pepper) shares its first character with "花生" (peanut) but contains no nut keyword |
| SeedChecks.NoMentionNoAllergen | backend/app/services/recipe_query_service.py:272-301 | a recipe whose name, description and ingredient names mention no keyword of a tag has no allergen of that tag and is kept by its filter |
| SeedChecks.KungPaoSeedTextsNutFree | backend/init_db.py:221-244 | the name, description and ingredient names of the seeded 宫保鸡丁 contain no nut keyword |
| SeedChecks.KungPaoSeedStepMentionsPeanuts | backend/init_db.py:230 | the second step of the seeded 宫保鸡丁 mentions peanuts |
| SeedChecks.CleanSeedRecipeKept | backend/app/services/recipe_query_service.py:272-301 | a seed recipe whose texts avoid an allergy's keywords is kept by that allergy's filter, whatever table it is linked against |
| SeedChecks.SeededKungPaoPassesNutFilter | backend/init_db.py:221-244 | the seeded 宫保鸡丁 mentions peanuts in a step, yet the nut-allergy filter keeps it, since steps are never read |
| SeedChecks.SweetSourRibsSeedTextsMeatFree | backend/init_db.py:268-290 | the texts of the seeded 糖醋排骨 contain no meat keyword |
| SeedChecks.SeededRibsPassAsVegetarian | backend/app/services/recipe_query_service.py:371-374 | the seeded 糖醋排骨 (spare ribs) meets the vegetarian preference and passes its filter |
| SeedChecks.SavedNutLineIsCaught | backend/collect_recipes.py:367-379 | a saved sample with an ingredient line naming a nut keyword is dropped by the nut-allergy filter |
| SeedChecks.CollectedKungPaoFailsNutFilter | backend/collect_recipes.py:48-78 | once saved, the collected 宫保鸡丁 is dropped by the nut-allergy filter, since "花生米" is one of its ingredient lines |
| FileNames.Underscore | backend/generate_recipe_images.py:48 | same length; every space becomes an underscore and every other character stays |
| FileNames.Sanitize | backend/generate_recipe_images.py:44-49 | never longer than the name, and no forbidden character or space is left |
| FileNames.CleanNameUnchanged | backend/download_recipe_photos.py:74-79 | a name without forbidden characters or spaces comes back unchanged |
| FileNames.SanitizeIdempotent | backend/generate_recipe_images.py:44-49 | cleaning twice is cleaning once |
| FileNames.SanitizeLength | backend/generate_recipe_images.py:47-48 | exactly the forbidden characters are lost, since spaces are replaced, not removed |
| FileNames.UnderscoreFilterCommute | backend/generate_recipe_images.py:47-48 | dropping forbidden characters, then replacing spaces, gives what the other order gives |
| FileNames.SanitizeKeepsOrder | backend/generate_recipe_images.py:47-48 | the cleaned name is a subsequence of the name with underscores for spaces |
| FileNames.NothingForbidden | backend/generate_recipe_images.py:47-48 | a name without forbidden characters only has its spaces replaced |
| FileNames.SpaceAndUnderscoreCollide | backend/download_recipe_photos.py:74-79 | "a b" and "a_b" get the same file name, so their files overwrite each other |
| FileNames.ForbiddenCharVanishes | backend/download_recipe_photos.py:77 | "a?b" and "ab" get the same file name |
| RecipeImages.CategoryLabel | backend/generate_recipe_images.py:53 | the category when it is set and non-empty, "其他" otherwise; never empty |
| RecipeImages.StyleFor | backend/generate_recipe_images.py:27-54 | the badge category's own style when it has one, the style of "其他" otherwise; always one of the listed styles |
| RecipeImages.NoCategoryDrawnAsOther | backend/generate_recipe_images.py:53-54 | a missing or empty category is drawn exactly like "其他" |
| RecipeImages.UnstyledCategoryKeepsName | backend/generate_recipe_images.py:53-54 | an unlisted category keeps its name on the badge but borrows the colours of "其他" |
| RecipeImages.DifficultyColor | backend/generate_recipe_images.py:38-55 | the listed colour of a known difficulty, the grey default for a missing or unknown one |
| RecipeImages.DescriptionLine | backend/generate_recipe_images.py:107 | at most 23 characters; a description of up to 20 is shown whole; a longer one keeps its first 20 characters and ends in "..." |
| RecipeImages.DescriptionLineIdempotent | backend/generate_recipe_images.py:107 | shortening a shown line again changes nothing |
| RecipeImages.DrawCard | backend/generate_recipe_images.py:51-111 | no card exactly when the description is missing; otherwise the card carries the category's colours and icon, the name, the badge label, the difficulty colour and text, the time and the shortened description |
| RecipeImages.SvgFileName | backend/generate_recipe_images.py:116 | ends in ".svg" and holds no path separator |
| RecipeImages.SvgUrl | backend/generate_recipe_images.py:127 | starts with "/images/", ends in ".svg", and names a file directly in that directory |
| RecipeImages.SvgListing | backend/generate_recipe_images.py:159-162 | exactly the files of the directory whose name ends in ".svg" |
| RecipeImages.WrittenCardListed | backend/generate_recipe_images.py:159-162 | every card written shows up in the listing |
| RecipeImages.Drawable | backend/generate_recipe_images.py:137-149 | exactly the stored recipes with a description |
| RecipeImages.UpdateRecipeImages | backend/generate_recipe_images.py:129-157 | keeps every key; each recipe with a description points at its card, each other is left as it was; the count is the number of recipes with a description |
| RecipeImages.UpdateRecipeImagesTwice | backend/generate_recipe_images.py:129-157 | a second run leaves the table as it is and reports the same count |
| ImageRewrite.StaleIds | backend/db_manager.py:86 | exactly the stored recipes whose image URL is set, non-empty and carries a marker |
| ImageRewrite.RewriteImages | backend/db_manager.py:78-96 | keeps every key; each recipe with a stale URL gets "/images/<name>.jpg", each other is left as it was; the count is the number of stale recipes |
| ImageRewrite.UpdateImages | backend/db_manager.py:82-92 | the loop over the recipes in key order ends with the table and the count the rule describes |
| ImageRewrite.FramedMarkInName | vercel_db.py:121-123 | a marker that cannot straddle the frame of a local path occurs in it exactly when it occurs in the recipe name |
| ImageRewrite.LocalImageStale | vercel_db.py:121-123 | with such markers, a rewritten URL is stale again exactly when the recipe name carries a marker |
| ImageRewrite.RewriteTwice | backend/db_manager.py:85-89 | a second run leaves the table as it is, and counts exactly the rows rewritten the first time whose recipe name carries a marker |
| ImageRewrite.SecondRunRewritesNothing | backend/db_manager.py:85-89 | when no recipe name carries a marker, a second run changes nothing and reports zero |
| DbManager.ParseAction | backend/db_manager.py:212-214 | exactly the six listed words select a command, and each selects the command of that name |
| DbManager.ParseActionName | backend/db_manager.py:212-214 | every command is selected by its own word |
| DbManager.ManagerInit | backend/db_manager.py:25-45 | skipped exactly when ingredients are stored; fails exactly when a stored user clashes with a seed user |
| DbManager.ManagerInitIsSeed | backend/db_manager.py:33-40 | the tool's own emptiness check repeats the seeding script's, so the command does exactly what the script does |
| DbManager.ManagerMarksFramed | backend/db_manager.py:86-88 | "example.com" cannot straddle the frame of "/images/<name>.jpg" |
| DbManager.ManagerUpdateSettles | backend/db_manager.py:78-96 | when no recipe name mentions "example.com", a second rewrite changes nothing and reports zero |
| DbManager.EmptyDb | backend/db_manager.py:109-113 | every table is empty and the store is valid |
| DbManager.ResetDatabase | backend/db_manager.py:98-123 | cancelled exactly when the answer is not "RESET"; otherwise the seeding of an empty store goes through, and its result is the new store |
| DbManager.ResetForgetsStore | backend/db_manager.py:108-118 | the outcome of a confirmed reset does not depend on what was stored before |
| DbManager.ResetLeavesSeedCatalog | backend/db_manager.py:108-118 | a confirmed reset reseeds, leaves exactly the seed ingredient names resolvable, and leaves usernames and e-mails unique |
| VercelDb.FixScheme | vercel_db.py:31-32 | a URL with the old scheme gets the new one and keeps the rest; any other URL is unchanged |
| VercelDb.FixedSchemeIsNew | vercel_db.py:31-32 | a repaired URL no longer starts with the old scheme |
| VercelDb.FixSchemeIdempotent | vercel_db.py:31-32 | repairing twice is repairing once |
| VercelDb.LoadEnv | vercel_db.py:19-37 | an unset URL stays unset; without a local environment file nothing changes; with one, the URL no longer starts with the old scheme, and one without it is unchanged |
| VercelDb.InitDatabase | vercel_db.py:39-69 | "skipped", with the store unchanged, exactly when ingredients are stored; "error" exactly when a stored user clashes with a seed user, leaving the first two commits; "success" leaves all three |
| VercelDb.InitAgainSkips | vercel_db.py:54-58 | after a success or an error, running the script again is skipped |
| VercelDb.InitMatchesManager | vercel_db.py:39-69 | the status and the store agree with what the maintenance tool's init leaves behind |
| VercelDb.VercelMarksFramed | vercel_db.py:121 | neither "example.com" nor "placeholder" can straddle the frame of a local path |
| VercelDb.VercelUpdateSettles | vercel_db.py:106-134 | when no recipe name mentions a marker, a second rewrite changes nothing and reports zero |
| VercelDb.VercelRuleWidensManager | vercel_db.py:121 | the script rewrites every URL the maintenance tool rewrites, and exactly those plus the ones mentioning "placeholder" |
| VercelDb.ParseCommand | vercel_db.py:141 | exactly the three listed words select a command, and each selects the command of that name |
| VercelDb.ParseCommandName | vercel_db.py:141 | every command is selected by its own word |
| RecipePhotos.PhotoSource | backend/download_recipe_photos.py:121-133 | the listed photo of a listed name, the generic food photo for any other |
| RecipePhotos.TomatoEggLooksGeneric | backend/download_recipe_photos.py:125-129 | the photo of 西红柿炒鸡蛋 is the very one any unlisted recipe gets |
| RecipePhotos.ContentExt | backend/download_recipe_photos.py:94-107 | an extension exactly when the content type starts with "image/", and then one of ".jpg", ".png", ".webp" |
| RecipePhotos.ContentExtPriority | backend/download_recipe_photos.py:100-107 | "jpeg" or "jpg" wins; ".png" exactly when "png" appears without them; ".webp" exactly when "webp" appears without all three |
| RecipePhotos.MissingContentTypeRefused | backend/download_recipe_photos.py:94-97 | a reply without a content type is refused |
| RecipePhotos.SvgAnswerStoredAsJpg | backend/download_recipe_photos.py:106-107 | an SVG answer is stored under ".jpg" |
| RecipePhotos.FirstOnDisk | backend/download_recipe_photos.py:147-150 | the extension found is one tried whose file exists; nothing exactly when no tried file exists |
| RecipePhotos.FirstOnDiskIsFirst | backend/download_recipe_photos.py:147-150 | when the k-th tried file exists, the extension found is the first tried one whose file exists, at or before k |
| RecipePhotos.DownloadRecipePhotoAsWritten | backend/download_recipe_photos.py:135-153 | no URL exactly when the reply is refused, leaving the disk alone; otherwise the new file is written and the URL names the first of the recipe's .jpg, .png and .webp files on disk: that file exists and no earlier one does |
| RecipePhotos.StalePhotoChosen | backend/download_recipe_photos.py:147-150 | with an older "x.jpg" on disk, saving a PNG answer for "x" returns the URL of the old JPEG |
| RecipePhotos.AsWrittenSecondRunRepoints | backend/download_recipe_photos.py:145-150 | as written, "a_b" (PNG) then "a b" (JPEG) share the file name a_b, so a second download for "a_b" points it at a_b.jpg where the first pointed at a_b.png |
| RecipePhotos.SavedFile | backend/download_recipe_photos.py:110 | a file exactly when the reply is accepted, and then the recipe's cleaned name with a photo extension |
| RecipePhotos.PhotoUrl | backend/download_recipe_photos.py:150 | a URL exactly when a file is saved, and then "/images/" followed by that file |
| RecipePhotos.DownloadRecipePhoto | backend/download_recipe_photos.py:135-153 | no URL exactly when the reply is refused, leaving the disk alone; otherwise the URL names the file just written, which is added to the disk |
| RecipePhotos.AsWrittenAgreesWithoutOlderFiles | backend/download_recipe_photos.py:145-150 | with no earlier photo file of the recipe on disk, the script as written and the corrected one agree |
| RecipePhotos.Answers | backend/download_recipe_photos.py:143-145 | each recipe name is answered by fetching its photo source |
| RecipePhotos.Fetched | backend/download_recipe_photos.py:169-171 | exactly the stored recipes whose photo reply is accepted |
| RecipePhotos.Stored | backend/download_recipe_photos.py:110-112 | exactly the files saved for some stored recipe |
| RecipePhotos.UpdateRecipePhotos | backend/download_recipe_photos.py:155-195 | keeps every key; each recipe whose photo arrives points at its file, each other is left as it was; updated counts the first, and updated plus failed is the number of recipes; the saved files join the disk |
| RecipePhotos.UpdatedPhotosExist | backend/download_recipe_photos.py:169-174 | every recipe the run points somewhere names a file the run leaves on disk |
| RecipePhotos.SecondRunKeepsRecipes | backend/download_recipe_photos.py:155-195 | a second run with the same answers writes each recipe's URL again, whatever the files |
| RecipePhotos.UpdateRecipePhotosTwice | backend/download_recipe_photos.py:155-195 | with the same answers, a second run leaves the recipes as the first did and counts the same |
| RecipePhotos.CleanupSvg | backend/download_recipe_photos.py:210-222 | exactly the files not ending in ".svg" remain |
| RecipePhotos.PhotoIsNoCard | backend/download_recipe_photos.py:110 | a saved photo file never ends in ".svg" |
| RecipePhotos.StoredPhotosAreNoCards | backend/download_recipe_photos.py:110-112 | no file the run saves is a card |
| RecipePhotos.RunDownloader | backend/download_recipe_photos.py:224-236 | keeps every key; no card is left on disk; every other file stays |
| RecipePhotos.NoCardsAfterDownload | backend/download_recipe_photos.py:229-233 | after the downloader's run, the card listing is empty |
| RecipePhotos.PhotoListing | backend/download_recipe_photos.py:197-201 | exactly the files whose lower-cased name ends in a listed photo extension, in directory order rather than the `sorted` order the script prints |
| RecipePhotos.StoredPhotoListed | backend/download_recipe_photos.py:197-201 | every photo file the script saves shows up in its listing |
| RecipePhotos.NameTablesAgree | backend/download_recipe_photos.py:33-72 | the table of search phrases and the table of photos name the same recipes |

## Left out

- The DeepSeek HTTP call itself and the parsing of the AI's JSON reply: a configured key is modelled only by the failure reply the service then gives (MealPlanner.CallApiFailure), so only the local planner is modelled in full. The bare `raise` for a missing key sits in `_call_deepseek_api` (backend/app/services/deepseek_service.py:274-275); the request-building code at backend/app/services/deepseek_service.py:645-672 follows the `return` of `_get_mock_meal_plan` and can never run.
- The full text of the meal-plan prompt (`_build_meal_plan_prompt`): only which records and how many of them reach it is modelled (MealPlanner.PromptEntries); the wording is plain string formatting.
- `random.choice`, `datetime.now` and `time.sleep`: the choice is a parameter `pick(day, slot)` reduced modulo the pool size, the date is a parameter `dateOf(day)`, and sleeping has no observable effect on the data.
- The Flask request and response objects, the SQLAlchemy session, `flush`/`commit` and the rollback after a failed commit: each route is a function from a store to a new store and a reply. Pages follow Flask-SQLAlchemy 3's `paginate` (RecordStore.Paginate), including its 404 for a page below 1 or past the end.
- The parsing of the query string: `page` and `per_page` arrive as optional integers; a value `request.args.get(..., type=int)` cannot parse falls back to the default, so it is given here as absent.
- IngredientRoutes.ListIngredients: rows come in id order, not sorted by name, because collation order of Chinese names is a database setting.
- RecipeRoutes.ListRecipes: newest first is read as descending id, since `created_at` is a clock reading taken at insert and ids grow with every insert; rows stamped within the same clock tick may come in another order in the source.
- UserRoutes.CreateUser: a JSON `null` username, e-mail or password is read as a missing key and answered with 400, because the model's user row holds text only. In the source the username and e-mail columns are nullable (backend/app/models/user.py:10-11): a `null` one is looked up with `IS NULL`, refused with 400 only when a user with that column NULL exists, and otherwise stored as NULL with 201; a `null` password reaches `generate_password_hash`, which raises on it.
- FavoriteRoutes.ListFavorites: newest first is read as descending id. For favorites added through the route this matches `created_at`, which is `utcnow` at insert (backend/app/models/favorite.py:11); the seeded favorites are back-dated by a random 1 to 30 days (backend/init_db.py:441, 459, 478), so for them descending id is not the `created_at` order the source sorts by.
- IngredientRoutes.SearchIngredients: matching is case-sensitive containment, as PostgreSQL's `LIKE` does on the Vercel deployment; the default SQLite store folds ASCII case in `LIKE`, so there a query "beef" also finds "Beef", which the model does not promise. `%` and `_` inside the query are matched as ordinary characters, not as SQL LIKE wildcards.
- RecipeRoutes.SearchRecipes: the same case-sensitive containment and the same literal `%` and `_` as IngredientRoutes.SearchIngredients, on both the name and the description.
- RecipeQuery.SearchRecipesByCriteria: its `LIKE` filters are the same case-sensitive containment; the keyword tables are Chinese, which has no case, so the difference shows only for Latin letters in a request.
- Queries without `ORDER BY` (the searches, backend/app/routes/recipe.py:202-205, and the query service's lookups) are read in id order, the order the rows were inserted; SQL itself promises no order for them.
- RecipeRoutes.DeleteRecipe: favorite rows naming the recipe are kept and left pointing at the removed id, since `FavoriteRecipe.recipe` has no cascade (backend/app/models/favorite.py:10-14); SQLite then answers 204, while a database that enforces the foreign key (PostgreSQL on Vercel) fails the commit with 500, which the model does not decide.
- Route bodies of the recipe, pantry and shopping-list routes are typed records, so a JSON `null` and an absent key are both an absent field (except the shopping-list name, where the two agree in the source too: the ORM leaves a `None` out of the INSERT and the column default applies), and a step or ingredient line that is not a JSON object cannot be written. In the source a `null` recipe name, step description or link amount breaks a NOT NULL column and a line that is not an object raises on `.get`, each a 500; the model instead reads the `null` as absent, so creating a recipe with a `null` required field answers 400 (backend/app/routes/recipe.py:44-47 tests only that the key is present), an update keeps the old value, a step description becomes "" and a link amount 0.0, and a line that is not an object has no counterpart. A `null` `is_purchased` on an item update (backend/app/routes/user.py:245-246) is stored as NULL in the source and keeps the old flag here; on item creation the column default False applies in both. Only the meal-plan route reads untyped JSON (MealPlanRoute.ParseRequest).
- MealPlanRoute.StringItems: list items that are not strings are dropped, whereas the source passes them on to the planner, where they would fail the string checks later.
- MealPlanRoute.ListField: inherits the dropping of non-string items from MealPlanRoute.StringItems.
- MealPlanRoute.CuisineField: a cuisine that is not a string is treated as absent, whereas the source passes the value on unchanged.
- Text.Lower: folds the ASCII letters A-Z only; Python's `lower()` also folds other scripts, which the Chinese keyword tables never need.
- OAuth login and password hashing in the user routes: they depend on external identity providers and a hashing library; the password is required by the create route but the model's user row does not hold it.
- `get_popular_recipes` (backend/app/services/recipe_query_service.py:101-121): it is a newest-first listing limited to a count, which needs the clock order left out above.
- The `/meal-plan/test` route (backend/app/routes/meal_plan.py:131): it returns a fixed diagnostic payload.
- The plain read-by-id routes `get_recipe`, `get_ingredient`, `get_user` and `get_shopping_list`: each returns the stored row or 404, with no logic beyond the table lookup the other routes already use.
- `check_status`, `backup` and `migrate` in backend/db_manager.py and `check_database` in vercel_db.py: they print diagnostics, copy files or run schema migrations, none of which changes the modelled data.
- The parsing of `.env` files by `load_dotenv` and the reading of environment variables: the API key is a parameter.
- File and network I/O in the scripts: directory listing order, file sizes, image bytes and the SVG markup text are not modelled; the disk is the set of file names present, and a directory listing is a sequence of names in an order the model does not fix.
- InitDb.Stock: two stock entries for the same (user, ingredient) pair collapse into one, the later one winning, where the pantry's primary key on that pair would make the third commit fail; the script's stock list repeats no ingredient.
- InitDb.Seed: a favorites list naming the same recipe twice, or a seed recipe naming the same ingredient twice, would break the unique (user, recipe) pair or the link's primary key and fail its commit; the model stores the rows and does not fail. The script's stock and favorites lists repeat no name.
- UserRoutes.AddUserIngredient: an expiry date counts as parseable only in the `YYYY-MM-DD` form (Text.IsoDate); the longer forms `datetime.fromisoformat` also accepts, such as a date followed by a time, are answered 500 here.
- IngredientRoutes.DeleteIngredient: a shopping-list item naming the ingredient is left pointing at the removed id; whether the source's commit fails then depends on the database enforcing the item's foreign key (SQLite does not by default), which the model does not decide.
- RecipePhotos.UpdateRecipePhotos: the run is built on the corrected download (RecipePhotos.DownloadRecipePhoto), so each recipe points at the file just saved. As written, the script probes .jpg, .png and .webp in turn, so with x.jpg on disk and a PNG answer it points "x" at /images/x.jpg (RecipePhotos.StalePhotoChosen).
- RecipePhotos.SecondRunKeepsRecipes: holds for the corrected run only. As written, "a_b" (PNG answer) and then "a b" (JPEG answer) share the file name a_b, and a second run moves "a_b" from a_b.png to a_b.jpg (RecipePhotos.AsWrittenSecondRunRepoints).
- RecipePhotos.UpdateRecipePhotosTwice: holds for the corrected run only, for the reason given for RecipePhotos.SecondRunKeepsRecipes.
- The configuration classes and application factory (backend/config.py, backend/app/__init__.py) beyond the default API key, and the whole frontend.

## Findings

| source | as written | input that shows it | evidently intended | confidence | as-written member | corrected member |
|---|---|---|---|---|---|---|
| backend/config.py:24 | the default key is 'your-deepseek-api-key', but the placeholder test at backend/app/services/deepseek_service.py:35 looks for 'your-deepseek-api-key-here', so the service takes the AI path and fails at backend/app/services/deepseek_service.py:274-275 | DEEPSEEK_API_KEY not set in the environment | with no real key, plan from stored recipes | not executed | MealPlanner.DefaultConfigKeyFails | MealPlanner.DefaultConfigKeyPlans |
| backend/download_recipe_photos.py:147-150 | after saving a photo, the script returns the first existing file among .jpg, .png and .webp, not the file it just wrote | "x.jpg" already on disk and a PNG answer for recipe "x" | return the URL of the file just saved | not executed | RecipePhotos.StalePhotoChosen | RecipePhotos.DownloadRecipePhoto |
