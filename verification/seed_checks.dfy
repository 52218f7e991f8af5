/**
 * How the keyword filters treat the seeded and the collected recipes. The filters read a recipe's
 * name, description and ingredient names, never its steps: the seeded 宫保鸡丁 mentions peanuts only
 * in a step and so passes a nut-allergy filter, while the collected one lists peanuts as an
 * ingredient and is dropped. The seeded 糖醋排骨 names no meat keyword and passes as vegetarian.
 */
module SeedChecks {
  import opened Wrappers
  import opened Text
  import opened Recipes
  import opened Keywords
  import opened RecipeFilter
  import opened RecordStore
  import opened StoreView
  import opened InitDb
  import opened SeedData
  import CollectRecipes

  /** No character of `s` is in `cs`. */
  predicate AvoidsChars(s: string, cs: set<char>) {
    forall i :: 0 <= i < |s| ==> s[i] !in cs
  }

  /** A text avoiding the first character of every keyword contains none of them. */
  lemma AvoidsLeads(s: string, ks: seq<string>, cs: set<char>)
    requires forall j :: 0 <= j < |ks| ==> |ks[j]| > 0 && ks[j][0] in cs
    requires AvoidsChars(s, cs)
    ensures forall j :: 0 <= j < |ks| ==> !Contains(s, ks[j])
  {
    forall j | 0 <= j < |ks| ensures !Contains(s, ks[j]) {
      AbsentFirstChar(s, ks[j]);
    }
  }

  /** The keywords of the nut allergy. */
  const NutKeywords: seq<string> := AllergyKeywords("nuts")

  /** The first characters of the nut keywords. */
  const NutLeads: set<char> := {'花', '核', '杏', '腰', '榛', '坚'}

  /** The words the vegetarian preference excludes, all of one character. */
  const MeatKeywords: seq<string> := DietaryRule("vegetarian").value.exclude

  /** The characters of the meat keywords. */
  const MeatChars: set<char> := {'肉', '鸡', '牛', '猪', '羊', '鱼', '虾', '蟹'}

  /** A text avoiding the nut leads contains no nut keyword. */
  lemma NoNutKeyword(s: string)
    requires AvoidsChars(s, NutLeads)
    ensures forall j :: 0 <= j < |NutKeywords| ==> !Contains(s, NutKeywords[j])
  {
    AvoidsLeads(s, NutKeywords, NutLeads);
  }

  /** A text avoiding the meat characters contains no meat keyword. */
  lemma NoMeatKeyword(s: string)
    requires AvoidsChars(s, MeatChars)
    ensures forall j :: 0 <= j < |MeatKeywords| ==> !Contains(s, MeatKeywords[j])
  {
    AvoidsLeads(s, MeatKeywords, MeatChars);
  }

  /** "花椒" (Sichuan pepper) shares its first character with "花生" (peanut) but contains no nut keyword. */
  lemma PepperIsNoNut()
    ensures forall j :: 0 <= j < |NutKeywords| ==> !Contains("花椒", NutKeywords[j])
  {
    var s := "花椒";
    AbsentSomeChar(s, "花生", 1);
    AbsentFirstChar(s, "核桃");
    AbsentFirstChar(s, "杏仁");
    AbsentFirstChar(s, "腰果");
    AbsentFirstChar(s, "榛子");
    AbsentFirstChar(s, "坚果");
  }

  /** A recipe mentioning no keyword of a tag with keyword list `ks` has no allergen of that tag. */
  lemma NoMentionNoAllergen(r: Recipe, tag: string, ks: seq<string>)
    requires AllergyKeywords(tag) == ks
    requires forall j :: 0 <= j < |ks| ==> !Mentions(r, ks[j])
    ensures !HasAllergen(r, [tag]) && FilterByAllergies([r], [tag]) == [r]
  {
    forall a, j | KeywordIndex([tag], a, j) ensures !Mentions(r, AllergyKeywords([tag][a])[j]) {
      assert [tag][a] == tag;
    }
    assert r in FilterByAllergies([r], [tag]);
  }

  /** The texts of the seeded 宫保鸡丁 contain no nut keyword. */
  lemma KungPaoSeedTextsNutFree()
    ensures SeedTextsAvoid(KungPaoSeed, NutKeywords)
  {
    NoNutKeyword(KungPaoSeed.name);
    NoNutKeyword(KungPaoSeed.description);
    forall k | 0 <= k < |KungPaoSeed.links|
      ensures forall j :: 0 <= j < |NutKeywords| ==> !Contains(KungPaoSeed.links[k].name, NutKeywords[j])
    {
      var n := KungPaoSeed.links[k].name;
      if k == 2 {
        assert n == "花椒";
        PepperIsNoNut();
      } else {
        assert AvoidsChars(n, NutLeads) by {
          if k == 0 { assert n == "鸡胸肉"; }
          else if k == 1 { assert n == "青椒"; }
          else if k == 3 { assert n == "醋"; }
          else if k == 4 { assert n == "生抽"; }
          else if k == 5 { assert n == "盐"; }
          else { assert n == "糖"; }
        }
        NoNutKeyword(n);
      }
    }
  }

  /** The second step of the seeded 宫保鸡丁 mentions peanuts ("花生米准备好"). */
  lemma KungPaoSeedStepMentionsPeanuts()
    ensures Contains(KungPaoSeed.steps[1].description, "花生")
  {
    assert OccursAt(KungPaoSeed.steps[1].description, "花生", 8);
  }

  /** The link names of a seeded recipe are names of its entries. */
  lemma SeededLinkNames(t: Table<IngredientRow>, id: int, s: SeedRecipe)
    requires Valid(t)
    ensures var r := AsRecipe(t, id, SeedRecipeRow(t, s));
            forall i :: 0 <= i < |r.links| ==> exists k :: 0 <= k < |s.links| && LinkName(r.links[i]) == s.links[k].name
  {
    var row := SeedRecipeRow(t, s);
    var r := AsRecipe(t, id, row);
    forall i | 0 <= i < |r.links| ensures exists k :: 0 <= k < |s.links| && LinkName(r.links[i]) == s.links[k].name {
      var k :| 0 <= k < |s.links| && LinkedFrom(t, row.links[i], s.links[k]);
      assert LinkName(r.links[i]) == s.links[k].name;
    }
  }

  /** The texts of a seed recipe contain none of the keywords. */
  predicate SeedTextsAvoid(s: SeedRecipe, ks: seq<string>) {
    (forall j :: 0 <= j < |ks| ==> !Contains(s.name, ks[j]) && !Contains(s.description, ks[j])) &&
    forall k, j :: 0 <= k < |s.links| && 0 <= j < |ks| ==> !Contains(s.links[k].name, ks[j])
  }

  /** A seed recipe whose texts avoid the keywords is stored as a recipe mentioning none of them. */
  lemma SeededRecipeAvoids(t: Table<IngredientRow>, id: int, s: SeedRecipe, ks: seq<string>)
    requires Valid(t) && SeedTextsAvoid(s, ks)
    ensures var r := AsRecipe(t, id, SeedRecipeRow(t, s));
            forall j :: 0 <= j < |ks| ==> !Mentions(r, ks[j])
  {
    var r := AsRecipe(t, id, SeedRecipeRow(t, s));
    SeededLinkNames(t, id, s);
    forall j | 0 <= j < |ks| ensures !InSomeIngredient(r, ks[j]) {
      forall i | 0 <= i < |r.links| ensures !Contains(LinkName(r.links[i]), ks[j]) {
        var k :| 0 <= k < |s.links| && LinkName(r.links[i]) == s.links[k].name;
      }
    }
  }

  /** A seed recipe whose texts avoid an allergy's keywords is kept by that allergy's filter, whatever table it is linked against. */
  lemma CleanSeedRecipeKept(t: Table<IngredientRow>, id: int, s: SeedRecipe, tag: string)
    requires Valid(t) && SeedTextsAvoid(s, AllergyKeywords(tag))
    ensures var rec := AsRecipe(t, id, SeedRecipeRow(t, s));
            rec.name == s.name && FilterByAllergies([rec], [tag]) == [rec]
  {
    var rec := AsRecipe(t, id, SeedRecipeRow(t, s));
    SeededRecipeAvoids(t, id, s, AllergyKeywords(tag));
    NoMentionNoAllergen(rec, tag, AllergyKeywords(tag));
  }

  /**
   * Whatever ingredient table it is linked against, the seeded 宫保鸡丁 passes the nut-allergy filter
   * although its steps use peanuts: no ingredient line names them.
   */
  lemma SeededKungPaoPassesNutFilter(t: Table<IngredientRow>, id: int)
    requires Valid(t)
    ensures Contains(KungPaoSeed.steps[1].description, "花生")
    ensures var r := AsRecipe(t, id, SeedRecipeRow(t, KungPaoSeed));
            !HasAllergen(r, ["nuts"]) && FilterByAllergies([r], ["nuts"]) == [r]
  {
    KungPaoSeedStepMentionsPeanuts();
    KungPaoSeedTextsNutFree();
    CleanSeedRecipeKept(t, id, KungPaoSeed, "nuts");
    NoMentionNoAllergen(AsRecipe(t, id, SeedRecipeRow(t, KungPaoSeed)), "nuts", NutKeywords);
  }

  /** The texts of the seeded 糖醋排骨 contain no meat keyword. */
  lemma SweetSourRibsSeedTextsMeatFree()
    ensures SeedTextsAvoid(SweetSourRibsSeed, MeatKeywords)
  {
    NoMeatKeyword(SweetSourRibsSeed.name);
    NoMeatKeyword(SweetSourRibsSeed.description);
    forall k | 0 <= k < |SweetSourRibsSeed.links|
      ensures forall j :: 0 <= j < |MeatKeywords| ==> !Contains(SweetSourRibsSeed.links[k].name, MeatKeywords[j])
    {
      var n := SweetSourRibsSeed.links[k].name;
      assert AvoidsChars(n, MeatChars) by {
        if k == 0 { assert n == "排骨"; }
        else if k == 1 { assert n == "葱"; }
        else if k == 2 { assert n == "料酒"; }
        else if k == 3 { assert n == "生抽"; }
        else if k == 4 { assert n == "醋"; }
        else { assert n == "糖"; }
      }
      NoMeatKeyword(n);
    }
  }

  /** The seeded 糖醋排骨 (sweet-and-sour spare ribs) passes the vegetarian filter: no text names a meat keyword. */
  lemma SeededRibsPassAsVegetarian(t: Table<IngredientRow>, id: int)
    requires Valid(t)
    ensures var r := AsRecipe(t, id, SeedRecipeRow(t, SweetSourRibsSeed));
            MeetsPreferences(r, ["vegetarian"]) && FilterByDietaryPreferences([r], ["vegetarian"]) == [r]
  {
    var r := AsRecipe(t, id, SeedRecipeRow(t, SweetSourRibsSeed));
    SweetSourRibsSeedTextsMeatFree();
    SeededRecipeAvoids(t, id, SweetSourRibsSeed, MeatKeywords);
    var rule := DietaryRule("vegetarian").value;
    assert rule.exclude == MeatKeywords && rule.requireAny == [];
    assert SatisfiesRule(r, rule);
    assert r in FilterByDietaryPreferences([r], ["vegetarian"]);
  }

  /** A saved sample with an ingredient line naming a nut keyword is dropped by the nut-allergy filter. */
  lemma SavedNutLineIsCaught(db: Db, s: CollectRecipes.SampleRecipe, i: int, j: int)
    requires ValidDb(db) && 0 <= i < |s.ingredients| && 0 <= j < |NutKeywords|
    requires Contains(s.ingredients[i].name, NutKeywords[j])
    ensures var (db', saved) := CollectRecipes.SaveRecipe(db, s);
            saved ==>
              var rec := AsRecipe(db'.ingredients, db.recipes.next, db'.recipes.rows[db.recipes.next]);
              HasAllergen(rec, ["nuts"]) && FilterByAllergies([rec], ["nuts"]) == []
  {
    var (db', saved) := CollectRecipes.SaveRecipe(db, s);
    if saved {
      var row := db'.recipes.rows[db.recipes.next];
      var rec := AsRecipe(db'.ingredients, db.recipes.next, row);
      assert LinkName(rec.links[i]) == s.ingredients[i].name;
      assert KeywordIndex(["nuts"], 0, j) && AllergyKeywords(["nuts"][0])[j] == NutKeywords[j];
      assert Mentions(rec, AllergyKeywords(["nuts"][0])[j]);
      assert rec !in FilterByAllergies([rec], ["nuts"]);
    }
  }

  /** Once saved, the collected 宫保鸡丁 is dropped by the nut-allergy filter: "花生米" is an ingredient line. */
  lemma CollectedKungPaoFailsNutFilter(db: Db)
    requires ValidDb(db)
    ensures var (db', saved) := CollectRecipes.SaveRecipe(db, CollectRecipes.KungPaoSample);
            saved ==>
              var rec := AsRecipe(db'.ingredients, db.recipes.next, db'.recipes.rows[db.recipes.next]);
              HasAllergen(rec, ["nuts"]) && FilterByAllergies([rec], ["nuts"]) == []
  {
    var n := CollectRecipes.KungPaoSample.ingredients[1].name;
    assert n == "花生米";
    assert OccursAt(n, NutKeywords[0], 0);
    SavedNutLineIsCaught(db, CollectRecipes.KungPaoSample, 1, 0);
  }
}
