/**
 * The `/meal-plan/generate` and `/meal-plan/preferences` routes: validation and coercion of the
 * JSON request body, the call into the planning service, and the status code of the answer.
 */
module MealPlanRoute {
  import opened Wrappers
  import opened Recipes
  import opened Keywords
  import opened RecipeFilter
  import opened MealCategories
  import opened MealPlanner

  /** A decoded JSON value, as Python's `json` module hands it over (numbers with a dot become floats). */
  datatype Json =
    | JNull
    | JBool(b: bool)
    | JInt(n: int)
    | JFloat(x: real)
    | JStr(s: string)
    | JArr(items: seq<Json>)
    | JObj(fields: map<string, Json>)

  /** Python truthiness of a decoded value. */
  predicate PyTruthy(v: Json) {
    match v
    case JNull => false
    case JBool(b) => b
    case JInt(n) => n != 0
    case JFloat(x) => x != 0.0
    case JStr(s) => s != ""
    case JArr(items) => items != []
    case JObj(fields) => fields != map[]
  }

  /** `isinstance(v, int)`: Python's `bool` is a subclass of `int`. */
  predicate IsPyInt(v: Json) {
    v.JInt? || v.JBool?
  }

  /** The integer value of an int or bool (`True == 1`). */
  function PyIntValue(v: Json): int
    requires IsPyInt(v)
  {
    if v.JBool? then (if v.b then 1 else 0) else v.n
  }

  /** `type(v).__name__` for the values that are not objects. */
  function PyTypeName(v: Json): string {
    match v
    case JNull => "NoneType"
    case JBool(_) => "bool"
    case JInt(_) => "int"
    case JFloat(_) => "float"
    case JStr(_) => "str"
    case JArr(_) => "list"
    case JObj(_) => "dict"
  }

  /** `data.get(key)`: absent keys read as `None`. */
  function Get(fields: map<string, Json>, key: string): Option<Json> {
    if key in fields then Some(fields[key]) else None
  }

  /**
   * The `days` check: falsy, not an int, below 1 or above 14 is refused. What gets through is the
   * integer value, so a JSON `true` plans one day.
   */
  function ValidDays(v: Option<Json>): (r: Option<int>)
    ensures r.Some? <==> v.Some? && ((v.value.JInt? && 1 <= v.value.n <= 14) || v.value == JBool(true))
    ensures r.Some? ==> 1 <= r.value <= 14
    ensures r.Some? && v.value.JInt? ==> r.value == v.value.n
  {
    if v.None? || !PyTruthy(v.value) || !IsPyInt(v.value) then None
    else if PyIntValue(v.value) < 1 || PyIntValue(v.value) > 14 then None
    else Some(PyIntValue(v.value))
  }

  /** The values the example in the route's documentation singles out: 0, 15, "3" and 3.0 are refused. */
  lemma DaysBoundaryCases()
    ensures ValidDays(Some(JInt(0))).None? && ValidDays(Some(JInt(15))).None?
    ensures ValidDays(Some(JStr("3"))).None? && ValidDays(Some(JFloat(3.0))).None?
    ensures ValidDays(Some(JInt(1))) == Some(1) && ValidDays(Some(JInt(14))) == Some(14)
    ensures ValidDays(Some(JBool(true))) == Some(1) && ValidDays(None).None?
  {
  }

  /** The strings of a JSON list, in order. */
  function StringItems(items: seq<Json>): (r: seq<string>)
    ensures |r| <= |items|
    ensures (forall i :: 0 <= i < |items| ==> items[i].JStr?) ==>
      |r| == |items| && forall i :: 0 <= i < |r| ==> r[i] == items[i].s
  {
    if items == [] then []
    else if items[0].JStr? then [items[0].s] + StringItems(items[1..])
    else StringItems(items[1..])
  }

  /** `data.get(key, [])` followed by "not a list becomes []". */
  function ListField(fields: map<string, Json>, key: string): (r: seq<string>)
    ensures (key !in fields || !fields[key].JArr?) ==> r == []
    ensures key in fields && fields[key].JArr? && (forall i :: 0 <= i < |fields[key].items| ==> fields[key].items[i].JStr?) ==>
      |r| == |fields[key].items| && forall i :: 0 <= i < |r| ==> r[i] == fields[key].items[i].s
  {
    match Get(fields, key)
    case Some(JArr(items)) => StringItems(items)
    case _ => []
  }

  /** The three budget levels the service knows. */
  const BudgetLevels: seq<string> := ["low", "medium", "high"]

  /** `data.get('budget_level', 'medium')`, anything outside the three levels becoming "medium". */
  function BudgetField(fields: map<string, Json>): (r: string)
    ensures r in BudgetLevels
    ensures "budget_level" in fields && fields["budget_level"].JStr? && fields["budget_level"].s in BudgetLevels ==>
      r == fields["budget_level"].s
    ensures !("budget_level" in fields && fields["budget_level"].JStr? && fields["budget_level"].s in BudgetLevels) ==>
      r == "medium"
  {
    match Get(fields, "budget_level")
    case Some(JStr(s)) => if s == "low" || s == "medium" || s == "high" then s else "medium"
    case _ => "medium"
  }

  /** `data.get('cuisine_type')`, passed on unchecked. */
  function CuisineField(fields: map<string, Json>): (r: Option<string>)
    ensures "cuisine_type" in fields && fields["cuisine_type"].JStr? ==> r == Some(fields["cuisine_type"].s)
    ensures !("cuisine_type" in fields && fields["cuisine_type"].JStr?) ==> r.None?
  {
    match Get(fields, "cuisine_type")
    case Some(JStr(s)) => Some(s)
    case _ => None
  }

  /** A normalised request, ready for the planning service. */
  datatype PlanRequest = PlanRequest(days: int, prefs: seq<string>, allergies: seq<string>, cuisine: Option<string>, budget: string)

  /** The body either normalises to a request or is answered right away. */
  datatype Parsed = Accepted(req: PlanRequest) | Refused(status: int, message: string)

  const EmptyBodyMessage: string := "请求数据不能为空"
  const BadDaysMessage: string := "天数必须是1-14之间的整数"
  const InternalErrorPrefix: string := "服务器内部错误: "

  /**
   * Steps one to three of the route: the empty-body check, the `days` check, the coercions. A truthy
   * body that is not an object fails on `data.get` and lands in the route's exception handler.
   */
  function ParseRequest(body: Option<Json>): (p: Parsed)
    ensures p.Refused? && p.status == 400 <==>
      body.None? || !PyTruthy(body.value) || (body.value.JObj? && ValidDays(Get(body.value.fields, "days")).None?)
    ensures p.Refused? && p.status == 500 <==> body.Some? && PyTruthy(body.value) && !body.value.JObj?
    ensures p.Refused? ==> p.status == 400 || p.status == 500
    ensures p.Accepted? ==> 1 <= p.req.days <= 14 && p.req.budget in BudgetLevels
    ensures p.Accepted? ==>
      body.Some? && body.value.JObj? &&
      p.req == PlanRequest(ValidDays(Get(body.value.fields, "days")).value,
                           ListField(body.value.fields, "dietary_preferences"),
                           ListField(body.value.fields, "allergies"),
                           CuisineField(body.value.fields), BudgetField(body.value.fields))
  {
    if body.None? || !PyTruthy(body.value) then Refused(400, EmptyBodyMessage)
    else if !body.value.JObj? then
      Refused(500, InternalErrorPrefix + "'" + PyTypeName(body.value) + "' object has no attribute 'get'")
    else
      var fields := body.value.fields;
      match ValidDays(Get(fields, "days"))
      case None => Refused(400, BadDaysMessage)
      case Some(days) =>
        Accepted(PlanRequest(days, ListField(fields, "dietary_preferences"), ListField(fields, "allergies"),
                             CuisineField(fields), BudgetField(fields)))
  }

  /** An HTTP answer: status code and the JSON payload's fields. */
  datatype Response = Response(status: int, success: bool, data: Option<PlanData>, message: string)

  /** `POST /meal-plan/generate`. */
  function GenerateRoute(body: Option<Json>, apiKey: Option<string>, store: Option<seq<Recipe>>,
                         pick: (int, Meal) -> nat, dateOf: int -> string): (resp: Response)
    ensures resp.status == 200 <==> resp.success
    ensures resp.status == 200 || resp.status == 400 || resp.status == 500
    ensures resp.status == 400 <==> ParseRequest(body).Refused? && ParseRequest(body).status == 400
    ensures resp.success <==> ParseRequest(body).Accepted? && IsUnsetKey(apiKey)
    ensures resp.success ==> resp.data.Some? && |resp.data.value.mealPlan| == ParseRequest(body).req.days
    ensures resp.success ==>
      body.Some? && body.value.JObj? &&
      |resp.data.value.mealPlan| == ValidDays(Get(body.value.fields, "days")).value
    ensures resp.success && "days" in body.value.fields && body.value.fields["days"].JInt? ==>
      |resp.data.value.mealPlan| == body.value.fields["days"].n
  {
    match ParseRequest(body)
    case Refused(status, message) => Response(status, false, None, message)
    case Accepted(req) =>
      var result := GenerateMealPlan(apiKey, req.days, req.prefs, req.allergies, req.cuisine, req.budget, store, pick, dateOf);
      Response(if result.success then 200 else 500, result.success, result.data, result.message)
  }

  /** The key test the service applies before planning from stored recipes. */
  predicate IsUnsetKey(apiKey: Option<string>) {
    !Truthy(apiKey) || apiKey.value == UnsetKeyMarker
  }

  /** A well-formed request with a non-list `allergies` field plans as if no allergy was given. */
  lemma NonListAllergiesIgnored(fields: map<string, Json>)
    requires "allergies" in fields && fields["allergies"].JStr?
    requires ParseRequest(Some(JObj(fields))).Accepted?
    ensures ParseRequest(Some(JObj(fields))).req.allergies == []
  {
  }

  // ---------------------------------------------------------------- the option table

  /** The dietary preferences the preferences route offers. */
  const OfferedDietary: seq<string> := ["vegetarian", "vegan", "low-carb", "high-protein", "low-fat", "gluten-free", "keto", "mediterranean"]

  /** The allergies the preferences route offers. */
  const OfferedAllergies: seq<string> := ["nuts", "dairy", "eggs", "seafood", "shellfish", "soy", "wheat", "sesame"]

  /** The cuisines the preferences route offers. */
  const OfferedCuisines: seq<string> := ["chinese", "western", "japanese", "korean", "thai", "italian", "indian", "mexican"]

  /** Every offered allergy and cuisine has keywords; of the dietary offers, exactly the last three have no rule. */
  lemma OfferedOptionsHaveTables()
    ensures forall i :: 0 <= i < |OfferedAllergies| ==> AllergyTable(OfferedAllergies[i]).Some?
    ensures forall i :: 0 <= i < |OfferedCuisines| ==> |CuisineKeywords(OfferedCuisines[i])| > 0
    ensures forall i :: 0 <= i < |OfferedDietary| ==> (DietaryRule(OfferedDietary[i]).None? <==> i >= 5)
  {
    forall i | 0 <= i < |OfferedAllergies| ensures AllergyTable(OfferedAllergies[i]).Some? {
      AllergyTableDomain(OfferedAllergies[i]);
    }
    forall i | 0 <= i < |OfferedCuisines| ensures |CuisineKeywords(OfferedCuisines[i])| > 0 {
      CuisineTableDomain(OfferedCuisines[i]);
    }
  }

  /** Choosing gluten-free, keto or mediterranean in the form leaves every recipe in place. */
  lemma RulelessOffersFilterNothing(recipes: seq<Recipe>)
    ensures FilterByDietaryPreferences(recipes, OfferedDietary[5..]) == recipes
  {
    OfferedOptionsHaveTables();
    forall t | 0 <= t < |OfferedDietary[5..]| ensures DietaryRule(OfferedDietary[5..][t]).None? {
      assert OfferedDietary[5..][t] == OfferedDietary[5 + t];
    }
    UnlistedPreferencesKeepAll(recipes, OfferedDietary[5..]);
  }
}
