/**
 * The three static tag-to-keyword tables of the recipe query service: cuisine, allergy and
 * dietary preference. Lookups mirror `dict.get` with the source's defaults.
 */
module Keywords {
  import opened Wrappers

  /** The allergy table; `None` for a tag it does not list. */
  function AllergyTable(tag: string): Option<seq<string>> {
    if tag == "nuts" then Some(["花生", "核桃", "杏仁", "腰果", "榛子", "坚果"])
    else if tag == "dairy" then Some(["牛奶", "奶酪", "黄油", "酸奶", "奶油"])
    else if tag == "eggs" then Some(["鸡蛋", "蛋", "蛋白", "蛋黄"])
    else if tag == "seafood" then Some(["鱼", "虾", "蟹", "贝", "海鲜"])
    else if tag == "shellfish" then Some(["虾", "蟹", "贝类", "扇贝", "生蚝"])
    else if tag == "soy" then Some(["豆腐", "豆浆", "酱油", "豆瓣酱", "大豆"])
    else if tag == "wheat" then Some(["面粉", "面条", "面包", "小麦"])
    else if tag == "sesame" then Some(["芝麻", "香油", "芝麻酱"])
    else None
  }

  /** `allergy_keywords.get(allergy, [allergy])`: an unlisted tag is its own only keyword. */
  function AllergyKeywords(tag: string): (r: seq<string>)
    ensures AllergyTable(tag).None? ==> r == [tag]
    ensures AllergyTable(tag).Some? ==> r == AllergyTable(tag).value && |r| >= 3
  {
    AllergyTable(tag).GetOr([tag])
  }

  /** `cuisine_keywords.get(cuisine_type, [])`. */
  function CuisineKeywords(tag: string): seq<string> {
    if tag == "chinese" then ["川菜", "粤菜", "湘菜", "鲁菜", "苏菜", "浙菜", "闽菜", "徽菜", "中式", "炒", "蒸", "煮", "炖"]
    else if tag == "western" then ["西式", "意大利", "法式", "美式", "烤", "煎", "焗"]
    else if tag == "japanese" then ["日式", "寿司", "刺身", "天妇罗", "拉面", "味噌", "照烧"]
    else if tag == "korean" then ["韩式", "泡菜", "烤肉", "石锅", "辣椒酱"]
    else if tag == "thai" then ["泰式", "咖喱", "冬阴功", "柠檬草", "椰浆"]
    else if tag == "italian" then ["意式", "披萨", "意面", "芝士", "番茄"]
    else if tag == "indian" then ["印度", "咖喱", "香料", "烤饼"]
    else if tag == "mexican" then ["墨西哥", "玉米", "辣椒", "牛油果"]
    else []
  }

  /** One dietary preference: keywords that must not occur, and keywords of which one must occur. */
  datatype DietRule = DietRule(exclude: seq<string>, requireAny: seq<string>)

  /** The dietary table; `None` for a tag it does not list (such tags filter nothing). */
  function DietaryRule(tag: string): Option<DietRule> {
    if tag == "vegetarian" then Some(DietRule(["肉", "鸡", "牛", "猪", "羊", "鱼", "虾", "蟹"], []))
    else if tag == "vegan" then Some(DietRule(["肉", "鸡", "牛", "猪", "羊", "鱼", "虾", "蟹", "蛋", "奶", "蜂蜜"], []))
    else if tag == "low-carb" then Some(DietRule(["米饭", "面条", "面包", "土豆", "红薯"], []))
    else if tag == "high-protein" then Some(DietRule([], ["鸡胸肉", "牛肉", "鱼", "蛋", "豆腐", "虾"]))
    else if tag == "low-fat" then Some(DietRule(["油炸", "红烧", "糖醋", "肥肉"], []))
    else None
  }

  /** The eight listed allergy tags. */
  const AllergyTags: seq<string> := ["nuts", "dairy", "eggs", "seafood", "shellfish", "soy", "wheat", "sesame"]

  /** The eight listed cuisine tags. */
  const CuisineTags: seq<string> := ["chinese", "western", "japanese", "korean", "thai", "italian", "indian", "mexican"]

  /** Exactly the listed allergy tags have table entries. */
  lemma AllergyTableDomain(tag: string)
    ensures AllergyTable(tag).Some? <==> tag in AllergyTags
  {
  }

  /** Exactly the listed cuisine tags have keywords; any other cuisine gets none. */
  lemma CuisineTableDomain(tag: string)
    ensures |CuisineKeywords(tag)| > 0 <==> tag in CuisineTags
  {
  }

  /** The vegan rule excludes everything the vegetarian rule excludes (and more). */
  lemma VeganRefinesVegetarian()
    ensures DietaryRule("vegan").Some? && DietaryRule("vegetarian").Some?
    ensures forall k :: k in DietaryRule("vegetarian").value.exclude ==> k in DietaryRule("vegan").value.exclude
  {
  }
}
