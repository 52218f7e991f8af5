/**
 * The recipe collection script: each sample recipe is saved unless a recipe of that name exists;
 * its ingredients are found by name or created; a failure rolls the whole recipe back.
 */
module CollectRecipes {
  import opened Wrappers
  import opened RecordStore
  import Seqs

  /** One ingredient entry of a sample recipe; `None` is a key the entry does not carry. */
  datatype SampleIngredient = SampleIngredient(name: string, amount: Option<real>, unit: Option<string>, note: Option<string>)

  /** A sample recipe as the script's dictionaries give it; `None` is a missing key. */
  datatype SampleRecipe = SampleRecipe(
    name: string,
    description: Option<string>,
    category: Option<string>,
    difficulty: Option<string>,
    cookingTime: Option<int>,
    imageUrl: Option<string>,
    steps: seq<string>,
    ingredients: seq<SampleIngredient>)

  const DefaultUnit: string := "克"
  const NewIngredientCategory: string := "其他"
  const DefaultCategory: string := "家常菜"
  const DefaultDifficulty: string := "中等"
  const DefaultCookingTime: int := 30

  /** The image URL a sample without one receives. */
  function PlaceholderImage(name: string): string {
    "https://example.com/" + name + ".jpg"
  }

  /** Adding a row under another name leaves the first row found by `name` where it was. */
  lemma InsertKeepsFind(t: Table<IngredientRow>, row: IngredientRow, name: string)
    requires Valid(t) && row.name != name
    ensures FindByName(Insert(t, row).0, name) == FindByName(t, name)
  {
    var (t', id) := Insert(t, row);
    var before := FindByName(t, name);
    var after := FindByName(t', name);
    if before.Some? {
      assert after.Some?;
      assert !(before.value < after.value);
      assert after.value in t.rows;
    }
  }

  /** Every name found in `t` is found in `t'`, at the same row. */
  ghost predicate KeepsFinds(t: Table<IngredientRow>, t': Table<IngredientRow>)
    requires Valid(t) && Valid(t')
  {
    forall m :: FindByName(t, m).Some? ==> FindByName(t', m) == FindByName(t, m)
  }

  /** Each entry's name is found in `t`, at the id listed for it. */
  predicate Resolves(t: Table<IngredientRow>, ings: seq<SampleIngredient>, ids: seq<int>)
    requires Valid(t)
  {
    |ids| == |ings| && forall i :: 0 <= i < |ings| ==> FindByName(t, ings[i].name) == Some(ids[i])
  }

  /** `get_or_create_ingredient`: the first ingredient of that name, or a new one filed under "其他". */
  function GetOrCreate(t: Table<IngredientRow>, name: string, unit: string): (r: (Table<IngredientRow>, int))
    requires Valid(t)
    ensures Valid(r.0) && Extends(t, r.0)
    ensures FindByName(r.0, name) == Some(r.1)
    ensures FindByName(t, name).Some? ==> r == (t, FindByName(t, name).value)
    ensures FindByName(t, name).None? ==>
      r.1 !in t.rows && r.0.rows == t.rows[r.1 := IngredientRow(name, Some(unit), Some(NewIngredientCategory), None)]
    ensures KeepsFinds(t, r.0)
  {
    match FindByName(t, name)
    case Some(id) => (t, id)
    case None =>
      var row := IngredientRow(name, Some(unit), Some(NewIngredientCategory), None);
      var (t', id) := Insert(t, row);
      assert FindByName(t', name) == Some(id) by {
        var f := FindByName(t', name);
        assert f.Some?;
        assert !(id < f.value);
      }
      forall m | FindByName(t, m).Some? ensures FindByName(t', m) == FindByName(t, m) {
        InsertKeepsFind(t, row, m);
      }
      (t', id)
  }

  /** The ingredient ids of the entries, resolved one after another through get-or-create. */
  function ResolveSamples(t: Table<IngredientRow>, ings: seq<SampleIngredient>): (r: (Table<IngredientRow>, seq<int>))
    requires Valid(t)
    ensures Valid(r.0) && Extends(t, r.0)
    ensures Resolves(r.0, ings, r.1) && KeepsFinds(t, r.0)
    decreases |ings|
  {
    if ings == [] then (t, [])
    else
      var (t1, id) := GetOrCreate(t, ings[0].name, ings[0].unit.GetOr(DefaultUnit));
      var (t2, ids) := ResolveSamples(t1, ings[1..]);
      ResolveStep(t, t1, t2, ings, id, ids);
      (t2, [id] + ids)
  }

  /** One step of `ResolveSamples`: the head's id survives the tail's inserts, and finds carry over. */
  lemma ResolveStep(t: Table<IngredientRow>, t1: Table<IngredientRow>, t2: Table<IngredientRow>,
                    ings: seq<SampleIngredient>, id: int, ids: seq<int>)
    requires Valid(t) && Valid(t1) && Valid(t2) && |ings| > 0
    requires Extends(t, t1) && Extends(t1, t2)
    requires FindByName(t1, ings[0].name) == Some(id)
    requires KeepsFinds(t, t1) && KeepsFinds(t1, t2)
    requires Resolves(t2, ings[1..], ids)
    ensures Extends(t, t2) && Resolves(t2, ings, [id] + ids) && KeepsFinds(t, t2)
  {
    ExtendsTrans(t, t1, t2);
    assert FindByName(t2, ings[0].name) == Some(id);
    var r := [id] + ids;
    assert forall i :: 1 <= i < |ings| ==> ings[i] == ings[1..][i - 1] && r[i] == ids[i - 1];
    forall m | FindByName(t, m).Some? ensures FindByName(t2, m) == FindByName(t, m) {
      assert FindByName(t1, m) == FindByName(t, m);
    }
  }

  /** The names of a sample's ingredient entries. */
  function SampleNames(ings: seq<SampleIngredient>): (r: seq<string>)
    ensures |r| == |ings| && forall i :: 0 <= i < |r| ==> r[i] == ings[i].name
  {
    if ings == [] then [] else [ings[0].name] + SampleNames(ings[1..])
  }

  /** Two entries resolve to the same ingredient exactly when they carry the same name. */
  lemma SameIdIffSameName(t: Table<IngredientRow>, ings: seq<SampleIngredient>)
    requires Valid(t)
    ensures var ids := ResolveSamples(t, ings).1;
            Seqs.NoDups(ids) <==> Seqs.NoDups(SampleNames(ings))
  {
    var (t', ids) := ResolveSamples(t, ings);
    var names := SampleNames(ings);
    forall i, j | 0 <= i < j < |ids| ensures ids[i] == ids[j] <==> names[i] == names[j] {
      assert FindByName(t', ings[i].name) == Some(ids[i]);
      assert FindByName(t', ings[j].name) == Some(ids[j]);
    }
  }

  /** The link rows of a sample: resolved ingredient, amount defaulting to 0, note defaulting to "". */
  function SampleLinks(ings: seq<SampleIngredient>, ids: seq<int>): (r: seq<LinkRow>)
    requires |ids| == |ings|
    ensures |r| == |ings|
    ensures forall i :: 0 <= i < |r| ==>
      r[i] == LinkRow(ids[i], ings[i].amount.GetOr(0.0), Some(ings[i].note.GetOr("")))
  {
    if ings == [] then []
    else [LinkRow(ids[0], ings[0].amount.GetOr(0.0), Some(ings[0].note.GetOr("")))] + SampleLinks(ings[1..], ids[1..])
  }

  /** The steps of a sample, numbered 1, 2, … in list order. */
  function NumberSteps(steps: seq<string>, first: int): (r: seq<StepRow>)
    ensures |r| == |steps|
    ensures forall i :: 0 <= i < |r| ==> r[i] == StepRow(first + i, steps[i], None)
    decreases |steps|
  {
    if steps == [] then [] else [StepRow(first, steps[0], None)] + NumberSteps(steps[1..], first + 1)
  }

  /** Some stored recipe carries the name. */
  predicate RecipeNamed(db: Db, name: string) {
    exists id :: id in db.recipes.rows && db.recipes.rows[id].name == name
  }

  /** The recipe row a successful save stores. */
  function SampleRow(s: SampleRecipe, links: seq<LinkRow>): RecipeRow {
    RecipeRow(s.name, Some(s.description.GetOr("")), Some(s.difficulty.GetOr(DefaultDifficulty)),
              Some(s.cookingTime.GetOr(DefaultCookingTime)), None, Some(s.category.GetOr(DefaultCategory)),
              Some(s.imageUrl.GetOr(PlaceholderImage(s.name))), NumberSteps(s.steps, 1), links)
  }

  /**
   * `save_recipe_to_db`. An existing name is skipped. An entry list naming one ingredient twice
   * gives two links with one key; the commit fails and the rollback discards the new ingredients too.
   */
  function SaveRecipe(db: Db, s: SampleRecipe): (r: (Db, bool))
    requires ValidDb(db)
    ensures ValidDb(r.0) && Extends(db.recipes, r.0.recipes)
    ensures !r.1 <==> RecipeNamed(db, s.name) || !Seqs.NoDups(SampleNames(s.ingredients))
    ensures !r.1 ==> r.0 == db
    ensures r.1 ==> db.recipes.next in r.0.recipes.rows && |r.0.recipes.rows| == |db.recipes.rows| + 1
    ensures r.1 ==>
      var id := db.recipes.next;
      var row := r.0.recipes.rows[id];
      id !in db.recipes.rows &&
      r.0.recipes == Table(db.recipes.rows[id := row], id + 1) &&
      r.0 == db.(recipes := r.0.recipes, ingredients := r.0.ingredients) &&
      Extends(db.ingredients, r.0.ingredients) &&
      row.name == s.name && row.description == Some(s.description.GetOr("")) &&
      row.category == Some(s.category.GetOr(DefaultCategory)) && row.difficulty == Some(s.difficulty.GetOr(DefaultDifficulty)) &&
      row.cookingTime == Some(s.cookingTime.GetOr(DefaultCookingTime)) && row.servings.None? &&
      row.imageUrl == Some(s.imageUrl.GetOr(PlaceholderImage(s.name)))
    ensures r.1 ==>
      var row := r.0.recipes.rows[db.recipes.next];
      |row.steps| == |s.steps| &&
      (forall i :: 0 <= i < |s.steps| ==> row.steps[i].number == i + 1 && row.steps[i].description == s.steps[i]) &&
      |row.links| == |s.ingredients| &&
      forall i :: 0 <= i < |s.ingredients| ==>
        row.links[i].ingredientId in r.0.ingredients.rows &&
        r.0.ingredients.rows[row.links[i].ingredientId].name == s.ingredients[i].name &&
        row.links[i].amount == s.ingredients[i].amount.GetOr(0.0)
  {
    if First(db.recipes, (row: RecipeRow) => row.name == s.name).Some? then (db, false)
    else
      var (ings, ids) := ResolveSamples(db.ingredients, s.ingredients);
      SameIdIffSameName(db.ingredients, s.ingredients);
      if !Seqs.NoDups(ids) then (db, false)
      else
        var (recipes, id) := Insert(db.recipes, SampleRow(s, SampleLinks(s.ingredients, ids)));
        (db.(recipes := recipes, ingredients := ings), true)
  }

  /** A sample whose save will be refused: its name is taken, or its entries repeat an ingredient. */
  predicate Settled(db: Db, s: SampleRecipe) {
    RecipeNamed(db, s.name) || !Seqs.NoDups(SampleNames(s.ingredients))
  }

  /** Every sample of the list is settled. */
  predicate AllSettled(db: Db, samples: seq<SampleRecipe>) {
    forall i :: 0 <= i < |samples| ==> Settled(db, samples[i])
  }

  /** Stored recipes are never removed by saving, so a settled sample stays settled. */
  lemma SettledStays(db: Db, db': Db, s: SampleRecipe)
    requires Extends(db.recipes, db'.recipes) && Settled(db, s)
    ensures Settled(db', s)
  {
    if RecipeNamed(db, s.name) {
      var id :| id in db.recipes.rows && db.recipes.rows[id].name == s.name;
      assert db'.recipes.rows[id] == db.recipes.rows[id];
    }
  }

  /** One save settles its sample and leaves every other settled sample settled. */
  lemma SaveSettles(db: Db, s: SampleRecipe)
    requires ValidDb(db)
    ensures Settled(SaveRecipe(db, s).0, s)
  {
    var (db1, saved) := SaveRecipe(db, s);
    if saved {
      assert db1.recipes.rows[db.recipes.next].name == s.name;
    }
  }

  /** `collect_sample_recipes`: save each sample in turn and count the saves that succeed. */
  function Collect(db: Db, samples: seq<SampleRecipe>): (r: (Db, nat))
    requires ValidDb(db)
    ensures ValidDb(r.0) && Extends(db.recipes, r.0.recipes)
    ensures r.1 <= |samples|
    ensures |r.0.recipes.rows| == |db.recipes.rows| + r.1
    ensures AllSettled(r.0, samples)
    ensures AllSettled(db, samples) ==> r == (db, 0)
    decreases |samples|
  {
    if samples == [] then (db, 0)
    else
      var (db1, saved) := SaveRecipe(db, samples[0]);
      var (db2, n) := Collect(db1, samples[1..]);
      SaveSettles(db, samples[0]);
      SettledStays(db1, db2, samples[0]);
      assert AllSettled(db2, samples) by {
        forall i | 1 <= i < |samples| ensures Settled(db2, samples[i]) {
          assert samples[i] == samples[1..][i - 1];
        }
      }
      assert AllSettled(db, samples) ==> !saved && AllSettled(db1, samples[1..]) by {
        if AllSettled(db, samples) {
          assert Settled(db, samples[0]);
          forall i | 0 <= i < |samples[1..]| ensures Settled(db1, samples[1..][i]) {
            assert samples[1..][i] == samples[i + 1];
          }
        }
      }
      (db2, if saved then n + 1 else n)
  }

  /** Running the collection a second time saves nothing and changes nothing. */
  lemma CollectTwiceSavesNothing(db: Db, samples: seq<SampleRecipe>)
    requires ValidDb(db)
    ensures var (db1, _) := Collect(db, samples);
            Collect(db1, samples) == (db1, 0)
  {
  }

  // ---------------------------------------------------------------- sample data

  /** The collected 宫保鸡丁: unlike the seeded one, it lists peanuts among its ingredients. */
  const KungPaoSample: SampleRecipe := SampleRecipe(
    "宫保鸡丁", Some("经典川菜，酸甜微辣，口感丰富"), Some("川菜"), Some("中等"), Some(25), None,
    ["鸡胸肉切丁，用料酒、生抽、淀粉腌制15分钟", "花生米用油炸至金黄色，捞起备用", "热锅下油，爆香干辣椒和花椒",
     "下鸡丁炒至变色", "加入葱姜蒜爆香", "调入生抽、老抽、糖、醋炒匀", "最后加入花生米炒匀即可"],
    [SampleIngredient("鸡胸肉", Some(300.0), Some("克"), None),
     SampleIngredient("花生米", Some(100.0), Some("克"), None),
     SampleIngredient("干辣椒", Some(10.0), Some("个"), None),
     SampleIngredient("花椒", Some(1.0), Some("茶匙"), None),
     SampleIngredient("葱", Some(2.0), Some("根"), None),
     SampleIngredient("姜", Some(10.0), Some("克"), None),
     SampleIngredient("蒜", Some(3.0), Some("瓣"), None),
     SampleIngredient("生抽", Some(2.0), Some("汤匙"), None),
     SampleIngredient("老抽", Some(1.0), Some("茶匙"), None),
     SampleIngredient("料酒", Some(1.0), Some("汤匙"), None),
     SampleIngredient("糖", Some(1.0), Some("汤匙"), None),
     SampleIngredient("醋", Some(1.0), Some("茶匙"), None),
     SampleIngredient("淀粉", Some(1.0), Some("汤匙"), None),
     SampleIngredient("食用油", Some(3.0), Some("汤匙"), None)])

  /** The collected 蒸蛋羹. */
  const SteamedEggSample: SampleRecipe := SampleRecipe(
    "蒸蛋羹", Some("嫩滑如豆腐的蒸蛋，营养丰富"), Some("家常菜"), Some("简单"), Some(15), None,
    ["鸡蛋打散，加盐调味", "加入温水搅拌均匀", "过筛去除泡沫", "蒸锅水开后放入蛋液", "盖上盘子，蒸10分钟",
     "出锅后淋生抽和香油", "撒上葱花即可"],
    [SampleIngredient("鸡蛋", Some(3.0), Some("个"), None),
     SampleIngredient("温水", Some(150.0), Some("毫升"), None),
     SampleIngredient("盐", Some(0.5), Some("茶匙"), None),
     SampleIngredient("生抽", Some(1.0), Some("茶匙"), None),
     SampleIngredient("香油", Some(0.5), Some("茶匙"), None),
     SampleIngredient("葱花", Some(1.0), Some("汤匙"), None)])
}
