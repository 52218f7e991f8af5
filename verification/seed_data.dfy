/**
 * The data `init_db` seeds: thirty-five ingredients, nine recipes, three users, the first user's
 * pantry, shopping list and preferences, and each user's favorites. Two recipes name an ingredient
 * the list does not have ("鱼" twice, "排骨" once), so seeding stores them without that link.
 */
module SeedData {
  import opened Wrappers
  import opened RecordStore
  import opened InitDb

  const SeedIngredients: seq<SeedIngredient> := [
    SeedIngredient("猪肉", "克", "肉类"),
    SeedIngredient("牛肉", "克", "肉类"),
    SeedIngredient("鸡胸肉", "克", "肉类"),
    SeedIngredient("鸡腿", "个", "肉类"),
    SeedIngredient("五花肉", "克", "肉类"),
    SeedIngredient("西红柿", "个", "蔬菜"),
    SeedIngredient("黄瓜", "根", "蔬菜"),
    SeedIngredient("土豆", "个", "蔬菜"),
    SeedIngredient("洋葱", "个", "蔬菜"),
    SeedIngredient("胡萝卜", "根", "蔬菜"),
    SeedIngredient("青椒", "个", "蔬菜"),
    SeedIngredient("白菜", "颗", "蔬菜"),
    SeedIngredient("菠菜", "把", "蔬菜"),
    SeedIngredient("生菜", "颗", "蔬菜"),
    SeedIngredient("豆芽", "把", "蔬菜"),
    SeedIngredient("盐", "克", "调味料"),
    SeedIngredient("糖", "克", "调味料"),
    SeedIngredient("生抽", "毫升", "调味料"),
    SeedIngredient("老抽", "毫升", "调味料"),
    SeedIngredient("料酒", "毫升", "调味料"),
    SeedIngredient("醋", "毫升", "调味料"),
    SeedIngredient("蚝油", "毫升", "调味料"),
    SeedIngredient("花椒", "克", "调味料"),
    SeedIngredient("八角", "个", "调味料"),
    SeedIngredient("辣椒粉", "克", "调味料"),
    SeedIngredient("米饭", "克", "主食"),
    SeedIngredient("面条", "克", "主食"),
    SeedIngredient("面粉", "克", "主食"),
    SeedIngredient("鸡蛋", "个", "其他"),
    SeedIngredient("豆腐", "块", "其他"),
    SeedIngredient("香菇", "朵", "其他"),
    SeedIngredient("木耳", "把", "其他"),
    SeedIngredient("葱", "根", "其他"),
    SeedIngredient("姜", "块", "其他"),
    SeedIngredient("蒜", "瓣", "其他")]

  const TomatoEggSeed: SeedRecipe := SeedRecipe(
    "西红柿炒鸡蛋", "家常美味，简单易做", 15, "简单", "家常菜", "https://example.com/tomato_egg.jpg",
    [SeedStep(1, "西红柿切块，鸡蛋打散", "https://example.com/step1.jpg"),
     SeedStep(2, "锅中倒油，油热后倒入鸡蛋翻炒至金黄", "https://example.com/step2.jpg"),
     SeedStep(3, "倒入西红柿翻炒，加入适量盐和糖", "https://example.com/step3.jpg"),
     SeedStep(4, "炒至西红柿软烂出汁，撒上葱花即可", "https://example.com/step4.jpg")],
    [SeedLink("西红柿", 2.0, "切块"),
     SeedLink("鸡蛋", 3.0, "打散"),
     SeedLink("盐", 2.0, "适量"),
     SeedLink("糖", 5.0, "适量"),
     SeedLink("葱", 1.0, "切段")])

  const BeefPotatoSeed: SeedRecipe := SeedRecipe(
    "土豆炖牛肉", "营养丰富，味道浓郁", 90, "中等", "炖菜", "https://example.com/beef_potato.jpg",
    [SeedStep(1, "牛肉切块，土豆切块", "https://example.com/step1.jpg"),
     SeedStep(2, "锅中倒油，放入姜片和牛肉翻炒至变色", "https://example.com/step2.jpg"),
     SeedStep(3, "加入料酒、生抽、老抽、八角，倒入没过牛肉的水", "https://example.com/step3.jpg"),
     SeedStep(4, "大火烧开后转小火炖40分钟", "https://example.com/step4.jpg"),
     SeedStep(5, "放入土豆继续炖30分钟，加盐调味即可", "https://example.com/step5.jpg")],
    [SeedLink("牛肉", 500.0, "切块"),
     SeedLink("土豆", 3.0, "切块"),
     SeedLink("姜", 1.0, "切片"),
     SeedLink("料酒", 15.0, "调味"),
     SeedLink("生抽", 15.0, "调味"),
     SeedLink("老抽", 5.0, "调色"),
     SeedLink("八角", 2.0, "增香"),
     SeedLink("盐", 5.0, "调味")])

  const PepperPorkSeed: SeedRecipe := SeedRecipe(
    "青椒炒肉", "下饭神器，香辣可口", 20, "简单", "家常菜", "https://example.com/pepper_pork.jpg",
    [SeedStep(1, "猪肉切片，青椒切块", "https://example.com/step1.jpg"),
     SeedStep(2, "猪肉加入生抽、料酒、淀粉腌制10分钟", "https://example.com/step2.jpg"),
     SeedStep(3, "锅中倒油，放入蒜末爆香，倒入猪肉翻炒至变色", "https://example.com/step3.jpg"),
     SeedStep(4, "加入青椒翻炒，加盐、生抽调味即可", "https://example.com/step4.jpg")],
    [SeedLink("猪肉", 300.0, "切片"),
     SeedLink("青椒", 3.0, "切块"),
     SeedLink("蒜", 3.0, "切末"),
     SeedLink("生抽", 10.0, "调味"),
     SeedLink("料酒", 5.0, "去腥"),
     SeedLink("盐", 3.0, "调味")])

  const MapoTofuSeed: SeedRecipe := SeedRecipe(
    "麻婆豆腐", "川菜经典，麻辣鲜香", 30, "中等", "川菜", "https://example.com/mapo_tofu.jpg",
    [SeedStep(1, "豆腐切块，猪肉剁成肉末", "https://example.com/step1.jpg"),
     SeedStep(2, "锅中倒油，放入花椒和辣椒粉炒出香味", "https://example.com/step2.jpg"),
     SeedStep(3, "加入肉末翻炒至变色，加入豆瓣酱继续翻炒", "https://example.com/step3.jpg"),
     SeedStep(4, "倒入适量水，放入豆腐块，小火煮5分钟", "https://example.com/step4.jpg"),
     SeedStep(5, "加入盐、糖、生抽调味，勾芡后撒上葱花即可", "https://example.com/step5.jpg")],
    [SeedLink("豆腐", 1.0, "切块"),
     SeedLink("猪肉", 100.0, "剁成肉末"),
     SeedLink("花椒", 5.0, "炒香"),
     SeedLink("辣椒粉", 10.0, "增辣"),
     SeedLink("盐", 3.0, "调味"),
     SeedLink("糖", 5.0, "提鲜"),
     SeedLink("生抽", 10.0, "调味"),
     SeedLink("葱", 1.0, "切花")])

  const SaladSeed: SeedRecipe := SeedRecipe(
    "蔬菜沙拉", "健康低卡，清爽可口", 10, "简单", "凉菜", "https://example.com/salad.jpg",
    [SeedStep(1, "生菜洗净撕小块，黄瓜切片，西红柿切块", "https://example.com/step1.jpg"),
     SeedStep(2, "将所有蔬菜放入大碗中", "https://example.com/step2.jpg"),
     SeedStep(3, "调制酱汁：橄榄油、柠檬汁、盐、黑胡椒混合", "https://example.com/step3.jpg"),
     SeedStep(4, "将酱汁淋在蔬菜上，轻轻拌匀即可", "https://example.com/step4.jpg")],
    [SeedLink("生菜", 1.0, "撕小块"),
     SeedLink("黄瓜", 1.0, "切片"),
     SeedLink("西红柿", 1.0, "切块"),
     SeedLink("盐", 2.0, "调味")])

  const BraisedFishSeed: SeedRecipe := SeedRecipe(
    "红烧鱼", "鲜香美味，色泽红亮", 40, "中等", "家常菜", "https://example.com/braised_fish.jpg",
    [SeedStep(1, "鱼洗净，两面划几刀，用盐、料酒腌制10分钟", "https://example.com/step1.jpg"),
     SeedStep(2, "锅中倒油，油热后放入鱼煎至两面金黄", "https://example.com/step2.jpg"),
     SeedStep(3, "加入葱姜蒜爆香，倒入生抽、老抽、料酒", "https://example.com/step3.jpg"),
     SeedStep(4, "加入适量水，大火烧开后转小火焖煮15分钟", "https://example.com/step4.jpg"),
     SeedStep(5, "大火收汁，撒上葱花即可", "https://example.com/step5.jpg")],
    [SeedLink("鱼", 1.0, "洗净"),
     SeedLink("葱", 2.0, "切段"),
     SeedLink("姜", 1.0, "切片"),
     SeedLink("蒜", 3.0, "拍碎"),
     SeedLink("生抽", 15.0, "调味"),
     SeedLink("老抽", 5.0, "上色"),
     SeedLink("料酒", 10.0, "去腥"),
     SeedLink("盐", 3.0, "调味")])

  const KungPaoSeed: SeedRecipe := SeedRecipe(
    "宫保鸡丁", "经典川菜，麻辣鲜香", 25, "中等", "川菜", "https://example.com/kungpao_chicken.jpg",
    [SeedStep(1, "鸡胸肉切丁，用盐、料酒、淀粉腌制10分钟", "https://example.com/step1.jpg"),
     SeedStep(2, "青椒、红椒切丁，花生米准备好", "https://example.com/step2.jpg"),
     SeedStep(3, "锅中倒油，放入干辣椒和花椒炒香", "https://example.com/step3.jpg"),
     SeedStep(4, "放入鸡丁翻炒至变色，加入青红椒丁继续翻炒", "https://example.com/step4.jpg"),
     SeedStep(5, "加入盐、糖、醋、生抽调味，放入花生米翻炒均匀即可", "https://example.com/step5.jpg")],
    [SeedLink("鸡胸肉", 300.0, "切丁"),
     SeedLink("青椒", 1.0, "切丁"),
     SeedLink("花椒", 5.0, "炒香"),
     SeedLink("醋", 10.0, "提味"),
     SeedLink("生抽", 15.0, "调味"),
     SeedLink("盐", 3.0, "调味"),
     SeedLink("糖", 5.0, "调味")])

  const SteamedBassSeed: SeedRecipe := SeedRecipe(
    "清蒸鲈鱼", "鲜嫩可口，营养丰富", 20, "简单", "粤菜", "https://example.com/steamed_fish.jpg",
    [SeedStep(1, "鲈鱼洗净，两面划几刀，用盐、料酒腌制10分钟", "https://example.com/step1.jpg"),
     SeedStep(2, "葱切丝，姜切片，铺在盘底", "https://example.com/step2.jpg"),
     SeedStep(3, "将鱼放在葱姜上，上锅蒸10分钟", "https://example.com/step3.jpg"),
     SeedStep(4, "取出鱼，倒掉盘中水分，撒上葱丝", "https://example.com/step4.jpg"),
     SeedStep(5, "锅中热油，浇在葱丝上，淋上生抽即可", "https://example.com/step5.jpg")],
    [SeedLink("鱼", 1.0, "洗净"),
     SeedLink("葱", 2.0, "切丝"),
     SeedLink("姜", 1.0, "切片"),
     SeedLink("生抽", 10.0, "调味"),
     SeedLink("料酒", 5.0, "去腥"),
     SeedLink("盐", 3.0, "调味")])

  const SweetSourRibsSeed: SeedRecipe := SeedRecipe(
    "糖醋排骨", "酸甜可口，色泽诱人", 45, "中等", "家常菜", "https://example.com/sweet_sour_ribs.jpg",
    [SeedStep(1, "排骨洗净，切段，用清水浸泡30分钟去血水", "https://example.com/step1.jpg"),
     SeedStep(2, "锅中倒油，放入排骨煎至两面金黄", "https://example.com/step2.jpg"),
     SeedStep(3, "加入料酒、生抽、醋、糖、适量水", "https://example.com/step3.jpg"),
     SeedStep(4, "大火烧开后转小火焖煮20分钟", "https://example.com/step4.jpg"),
     SeedStep(5, "大火收汁，撒上葱花即可", "https://example.com/step5.jpg")],
    [SeedLink("排骨", 500.0, "切段"),
     SeedLink("葱", 1.0, "切段"),
     SeedLink("料酒", 10.0, "去腥"),
     SeedLink("生抽", 15.0, "调味"),
     SeedLink("醋", 20.0, "提味"),
     SeedLink("糖", 30.0, "调味")])

  const SeedRecipes: seq<SeedRecipe> := [TomatoEggSeed, BeefPotatoSeed, PepperPorkSeed, MapoTofuSeed, SaladSeed,
                                         BraisedFishSeed, KungPaoSeed, SteamedBassSeed, SweetSourRibsSeed]

  const SeedUsers: seq<SeedUser> := [
    SeedUser("test_user", "test@example.com", None),
    SeedUser("google_user", "google@example.com", Some("google_123456789")),
    SeedUser("food_lover", "foodlover@example.com", None)]

  /** The first user's pantry. */
  const SeedStocks: seq<SeedStock> := [
    SeedStock("鸡蛋", 6.0, 14), SeedStock("西红柿", 3.0, 5), SeedStock("黄瓜", 2.0, 7),
    SeedStock("盐", 500.0, 365), SeedStock("糖", 400.0, 365)]

  /** The first user's shopping list. */
  const SeedListName: string := "周末采购"

  const SeedItems: seq<SeedItem> := [SeedItem("猪肉", 500.0, false), SeedItem("青椒", 3.0, false), SeedItem("土豆", 4.0, true)]

  /** The first user's preferences. */
  const SeedPreferences: seq<SeedPreference> := [
    SeedPreference("disliked_ingredient", "洋葱"),
    SeedPreference("preferred_category", "家常菜"),
    SeedPreference("health_preference", "low_calorie")]

  const FirstUserFavorites: seq<string> := ["西红柿炒鸡蛋", "土豆炖牛肉", "宫保鸡丁"]
  const SecondUserFavorites: seq<string> := ["麻婆豆腐", "清蒸鲈鱼", "糖醋排骨", "红烧鱼"]
  const ThirdUserFavorites: seq<string> := ["西红柿炒鸡蛋", "青椒炒肉", "蔬菜沙拉", "宫保鸡丁", "糖醋排骨"]

  const TheSeeds: Seeds := Seeds(SeedIngredients, SeedRecipes, SeedUsers, SeedStocks, SeedListName, SeedItems,
                                 SeedPreferences, [FirstUserFavorites, SecondUserFavorites, ThirdUserFavorites])

  // ---------------------------------------------------------------- facts about the data

  /** The seed users are three, with pairwise different usernames, e-mails and Google ids, and each has a favorites list. */
  lemma TheSeedsWellFormed()
    ensures WellFormed(TheSeeds) && |TheSeeds.users| == 3 && |TheSeeds.favorites| == 3
  {
    assert SeedUsers[0].username != SeedUsers[1].username && SeedUsers[0].email != SeedUsers[1].email;
    assert SeedUsers[0].username != SeedUsers[2].username && SeedUsers[0].email != SeedUsers[2].email;
    assert SeedUsers[1].username != SeedUsers[2].username && SeedUsers[1].email != SeedUsers[2].email;
  }

  /**
   * A stored account holding the second seed user's Google id, whatever its username and e-mail,
   * makes the third commit fail on an empty catalog.
   */
  lemma StoredGoogleIdFailsSeed(db: Db, dateIn: int -> string, id: int)
    requires ValidDb(db) && db.ingredients.rows == map[]
    requires id in db.users.rows && db.users.rows[id].googleId == Some("google_123456789")
    ensures Seed(db, TheSeeds, dateIn).Failed?
  {
    assert TheSeeds.users[1].googleId == Some("google_123456789");
    assert Taken(TheSeeds, db.users.rows[id]);
  }

  /** A name is listed once an entry carries it. */
  lemma ListedAt(name: string, i: int)
    requires 0 <= i < |SeedIngredients| && SeedIngredients[i].name == name
    ensures Listed(name, SeedIngredients)
  {
  }

  /** "鱼" (fish) is not one of the seed ingredients. */
  lemma FishNotListed()
    ensures !Listed("鱼", SeedIngredients)
  {
  }

  /** "排骨" (spare ribs) is not one of the seed ingredients. */
  lemma RibsNotListed()
    ensures !Listed("排骨", SeedIngredients)
  {
  }

  /** Every ingredient name of BraisedFishSeed after the first is a seed ingredient. */
  lemma BraisedFishRestListed()
    ensures forall i :: 1 <= i < |BraisedFishSeed.links| ==> Listed(BraisedFishSeed.links[i].name, SeedIngredients)
  {
    forall i | 1 <= i < |BraisedFishSeed.links| ensures Listed(BraisedFishSeed.links[i].name, SeedIngredients) {
      if i == 1 {
        assert BraisedFishSeed.links[1].name == "葱";
        ListedAt("葱", 32);
      } else if i == 2 {
        assert BraisedFishSeed.links[2].name == "姜";
        ListedAt("姜", 33);
      } else if i == 3 {
        assert BraisedFishSeed.links[3].name == "蒜";
        ListedAt("蒜", 34);
      } else if i == 4 {
        assert BraisedFishSeed.links[4].name == "生抽";
        ListedAt("生抽", 17);
      } else if i == 5 {
        assert BraisedFishSeed.links[5].name == "老抽";
        ListedAt("老抽", 18);
      } else if i == 6 {
        assert BraisedFishSeed.links[6].name == "料酒";
        ListedAt("料酒", 19);
      } else {
        assert BraisedFishSeed.links[7].name == "盐";
        ListedAt("盐", 15);
      }
    }
  }

  /** Every ingredient name of SteamedBassSeed after the first is a seed ingredient. */
  lemma SteamedBassRestListed()
    ensures forall i :: 1 <= i < |SteamedBassSeed.links| ==> Listed(SteamedBassSeed.links[i].name, SeedIngredients)
  {
    forall i | 1 <= i < |SteamedBassSeed.links| ensures Listed(SteamedBassSeed.links[i].name, SeedIngredients) {
      if i == 1 {
        assert SteamedBassSeed.links[1].name == "葱";
        ListedAt("葱", 32);
      } else if i == 2 {
        assert SteamedBassSeed.links[2].name == "姜";
        ListedAt("姜", 33);
      } else if i == 3 {
        assert SteamedBassSeed.links[3].name == "生抽";
        ListedAt("生抽", 17);
      } else if i == 4 {
        assert SteamedBassSeed.links[4].name == "料酒";
        ListedAt("料酒", 19);
      } else {
        assert SteamedBassSeed.links[5].name == "盐";
        ListedAt("盐", 15);
      }
    }
  }

  /** Every ingredient name of SweetSourRibsSeed after the first is a seed ingredient. */
  lemma SweetSourRibsRestListed()
    ensures forall i :: 1 <= i < |SweetSourRibsSeed.links| ==> Listed(SweetSourRibsSeed.links[i].name, SeedIngredients)
  {
    forall i | 1 <= i < |SweetSourRibsSeed.links| ensures Listed(SweetSourRibsSeed.links[i].name, SeedIngredients) {
      if i == 1 {
        assert SweetSourRibsSeed.links[1].name == "葱";
        ListedAt("葱", 32);
      } else if i == 2 {
        assert SweetSourRibsSeed.links[2].name == "料酒";
        ListedAt("料酒", 19);
      } else if i == 3 {
        assert SweetSourRibsSeed.links[3].name == "生抽";
        ListedAt("生抽", 17);
      } else if i == 4 {
        assert SweetSourRibsSeed.links[4].name == "醋";
        ListedAt("醋", 20);
      } else {
        assert SweetSourRibsSeed.links[5].name == "糖";
        ListedAt("糖", 16);
      }
    }
  }

  /** Where the three recipes with an unlisted first ingredient sit in the seed data. */
  lemma UnlistedHeadRecipesAt()
    ensures TheSeeds.ingredients == SeedIngredients && |TheSeeds.recipes| == 9
    ensures TheSeeds.recipes[5] == BraisedFishSeed && TheSeeds.recipes[7] == SteamedBassSeed && TheSeeds.recipes[8] == SweetSourRibsSeed
  {
  }

  /** Seeding an empty store keeps braised fish with 7 of its 8 ingredient lines: "鱼" finds no ingredient. */
  lemma BraisedFishLosesFish(db: Db, dateIn: int -> string)
    requires ValidDb(db) && db.ingredients.rows == map[]
    ensures var r := Seed(db, TheSeeds, dateIn);
            db.recipes.next + 5 in r.db.recipes.rows && r.db.recipes.rows[db.recipes.next + 5].name == BraisedFishSeed.name &&
            |r.db.recipes.rows[db.recipes.next + 5].links| == 7
  {
    UnlistedHeadRecipesAt();
    FishNotListed();
    BraisedFishRestListed();
    UnlistedHeadDropped(db, TheSeeds, dateIn, 5);
  }

  /** Seeding an empty store keeps steamed sea bass with 5 of its 6 ingredient lines: "鱼" finds no ingredient. */
  lemma SteamedBassLosesFish(db: Db, dateIn: int -> string)
    requires ValidDb(db) && db.ingredients.rows == map[]
    ensures var r := Seed(db, TheSeeds, dateIn);
            db.recipes.next + 7 in r.db.recipes.rows && r.db.recipes.rows[db.recipes.next + 7].name == SteamedBassSeed.name &&
            |r.db.recipes.rows[db.recipes.next + 7].links| == 5
  {
    UnlistedHeadRecipesAt();
    FishNotListed();
    SteamedBassRestListed();
    UnlistedHeadDropped(db, TheSeeds, dateIn, 7);
  }

  /** Seeding an empty store keeps sweet-and-sour ribs with 5 of its 6 ingredient lines: "排骨" finds no ingredient. */
  lemma SweetSourRibsLoseRibs(db: Db, dateIn: int -> string)
    requires ValidDb(db) && db.ingredients.rows == map[]
    ensures var r := Seed(db, TheSeeds, dateIn);
            db.recipes.next + 8 in r.db.recipes.rows && r.db.recipes.rows[db.recipes.next + 8].name == SweetSourRibsSeed.name &&
            |r.db.recipes.rows[db.recipes.next + 8].links| == 5
  {
    UnlistedHeadRecipesAt();
    RibsNotListed();
    SweetSourRibsRestListed();
    UnlistedHeadDropped(db, TheSeeds, dateIn, 8);
  }
}
