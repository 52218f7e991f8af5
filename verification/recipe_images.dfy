/**
 * The picture-card generator: for each recipe it draws an SVG card coloured by the recipe's
 * category and difficulty, writes it under a cleaned file name and points the recipe's image URL
 * at it. A recipe whose card cannot be drawn keeps its URL and is not counted.
 */
module RecipeImages {
  import opened Wrappers
  import opened Text
  import opened Recipes
  import opened RecordStore
  import opened Seqs
  import opened FileNames

  // ---------------------------------------------------------------- styles

  /** Background, icon and accent colour of a category's card. */
  datatype Style = Style(bg: string, icon: string, accent: string)

  /** The category whose style every other category borrows. */
  const OtherCategory: string := "其他"

  const CategoryStyles: map<string, Style> := map[
    "川菜" := Style("#FF6B6B", "🌶️", "#FF5252"),
    "粤菜" := Style("#4ECDC4", "🦐", "#26A69A"),
    "家常菜" := Style("#45B7D1", "🏠", "#2196F3"),
    "素菜" := Style("#96CEB4", "🥬", "#4CAF50"),
    "面食" := Style("#FFEAA7", "🍜", "#FFC107"),
    "炖菜" := Style("#DDA0DD", "🍲", "#9C27B0"),
    OtherCategory := Style("#95A5A6", "🍽️", "#607D8B")]

  /** The difficulty badge colour when the difficulty is missing or unknown. */
  const DefaultColor: string := "#95A5A6"

  const DifficultyColors: map<string, string> := map["简单" := "#4CAF50", "中等" := "#FF9800", "困难" := "#F44336"]

  /** `recipe.category or "其他"`: the text on the category badge. */
  function CategoryLabel(category: Option<string>): (r: string)
    ensures Truthy(category) ==> r == category.value
    ensures !Truthy(category) ==> r == OtherCategory
    ensures r != ""
  {
    if Truthy(category) then category.value else OtherCategory
  }

  /** The style of the badge's category, the borrowed one for a category without its own. */
  function StyleFor(category: Option<string>): (r: Style)
    ensures r in CategoryStyles.Values
    ensures CategoryLabel(category) in CategoryStyles ==> r == CategoryStyles[CategoryLabel(category)]
    ensures CategoryLabel(category) !in CategoryStyles ==> r == CategoryStyles[OtherCategory]
  {
    var shown := CategoryLabel(category);
    if shown in CategoryStyles then CategoryStyles[shown] else CategoryStyles[OtherCategory]
  }

  /** A missing category and an empty one are drawn like the catch-all category. */
  lemma NoCategoryDrawnAsOther(category: Option<string>)
    requires !Truthy(category)
    ensures StyleFor(category) == StyleFor(Some(OtherCategory))
  {
  }

  /** A category without a style of its own keeps its name on the badge but borrows the catch-all colours. */
  lemma UnstyledCategoryKeepsName()
    ensures CategoryLabel(Some("凉菜")) == "凉菜"
    ensures StyleFor(Some("凉菜")) == Style("#95A5A6", "🍽️", "#607D8B")
  {
    assert "凉菜" !in CategoryStyles;
  }

  /** `difficulty_colors.get(recipe.difficulty, "#95A5A6")`. */
  function DifficultyColor(difficulty: Option<string>): (r: string)
    ensures r in DifficultyColors.Values || r == DefaultColor
    ensures difficulty.Some? && difficulty.value in DifficultyColors ==> r == DifficultyColors[difficulty.value]
    ensures (difficulty.None? || difficulty.value !in DifficultyColors) ==> r == DefaultColor
  {
    if difficulty.Some? && difficulty.value in DifficultyColors then DifficultyColors[difficulty.value] else DefaultColor
  }

  // ---------------------------------------------------------------- card

  /** The longest description shown in full; a longer one is cut there and ends in an ellipsis. */
  const DescriptionWidth: nat := 20

  /** `description[:20] + '...' if len(description) > 20 else description`. */
  function DescriptionLine(d: string): (r: string)
    ensures |r| <= DescriptionWidth + 3
    ensures |d| <= DescriptionWidth ==> r == d
    ensures |d| > DescriptionWidth ==> |r| == DescriptionWidth + 3 && r[..DescriptionWidth] == d[..DescriptionWidth] && EndsWith(r, "...")
  {
    if |d| > DescriptionWidth then d[..DescriptionWidth] + "..." else d
  }

  /** Shortening a shown line again changes nothing. */
  lemma DescriptionLineIdempotent(d: string)
    ensures DescriptionLine(DescriptionLine(d)) == DescriptionLine(d)
  {
    if |d| > DescriptionWidth {
      var r := DescriptionLine(d);
      assert r[..DescriptionWidth] + "..." == r;
    }
  }

  /** What varies from one card to the next. */
  datatype Card = Card(
    bg: string, accent: string, icon: string,
    name: string, categoryLabel: string, difficultyColor: string,
    difficulty: Option<string>, cookingTime: Option<int>, descriptionLine: string)

  /**
   * `generate_svg_image`: the card of a recipe, or nothing when the recipe has no description
   * (measuring the missing text raises, and the caller skips the recipe).
   */
  function DrawCard(row: RecipeRow): (r: Option<Card>)
    ensures r.None? <==> row.description.None?
    ensures r.Some? ==>
      var style := StyleFor(row.category);
      r.value.bg == style.bg && r.value.accent == style.accent && r.value.icon == style.icon &&
      r.value.name == row.name && r.value.categoryLabel == CategoryLabel(row.category) &&
      r.value.difficultyColor == DifficultyColor(row.difficulty) && r.value.difficulty == row.difficulty &&
      r.value.cookingTime == row.cookingTime && r.value.descriptionLine == DescriptionLine(row.description.value)
  {
    if row.description.None? then None
    else
      var style := StyleFor(row.category);
      Some(Card(style.bg, style.accent, style.icon, row.name, CategoryLabel(row.category),
                DifficultyColor(row.difficulty), row.difficulty, row.cookingTime, DescriptionLine(row.description.value)))
  }

  // ---------------------------------------------------------------- file and URL

  /** The directory the cards are written to, as the URL sees it. */
  const ImagesPrefix: string := "/images/"

  /** `f"{sanitize_filename(recipe.name)}.svg"`. */
  function SvgFileName(name: string): (r: string)
    ensures EndsWith(r, ".svg")
    ensures forall i :: 0 <= i < |r| ==> r[i] != '/' && r[i] != '\\'
  {
    var r := Sanitize(name) + ".svg";
    assert r[|r| - 4..] == ".svg";
    r
  }

  /** `f"/images/{filename}"`: the card's URL names a file directly inside the images directory. */
  function SvgUrl(name: string): (r: string)
    ensures StartsWith(r, ImagesPrefix) && EndsWith(r, ".svg")
    ensures forall i :: |ImagesPrefix| <= i < |r| ==> r[i] != '/'
  {
    var f := SvgFileName(name);
    var r := ImagesPrefix + f;
    assert r[..|ImagesPrefix|] == ImagesPrefix;
    assert forall i :: |ImagesPrefix| <= i < |r| ==> r[i] == f[i - |ImagesPrefix|];
    assert r[|r| - 4..] == f[|f| - 4..];
    r
  }

  /** A file the card listing shows. */
  predicate IsCard(f: string) {
    EndsWith(f, ".svg")
  }

  /** The listing of generated cards: the directory's `.svg` files. */
  function SvgListing(files: seq<string>): (r: seq<string>)
    ensures forall f :: f in r <==> f in files && IsCard(f)
  {
    Filter(files, IsCard)
  }

  /** Every card written is listed. */
  lemma WrittenCardListed(files: seq<string>, name: string)
    requires SvgFileName(name) in files
    ensures SvgFileName(name) in SvgListing(files)
  {
  }

  // ---------------------------------------------------------------- update

  /** The recipes whose card can be drawn. */
  function Drawable(t: Table<RecipeRow>): (r: set<int>)
    ensures forall id :: id in r <==> id in t.rows && t.rows[id].description.Some?
  {
    set id | id in t.rows && t.rows[id].description.Some?
  }

  /** One recipe after its attempt: its URL points at its card when the card was drawn. */
  function WithCard(row: RecipeRow): RecipeRow {
    if DrawCard(row).Some? then row.(imageUrl := Some(SvgUrl(row.name))) else row
  }

  /**
   * `update_recipe_images`: every drawable recipe points at its card and counts; the others are
   * left as they were.
   */
  function UpdateRecipeImages(t: Table<RecipeRow>): (r: (Table<RecipeRow>, nat))
    ensures r.0.next == t.next && r.0.rows.Keys == t.rows.Keys
    ensures forall id :: id in t.rows && t.rows[id].description.Some? ==>
      r.0.rows[id] == t.rows[id].(imageUrl := Some(SvgUrl(t.rows[id].name)))
    ensures forall id :: id in t.rows && t.rows[id].description.None? ==> r.0.rows[id] == t.rows[id]
    ensures r.1 == |Drawable(t)|
  {
    (Table(map id | id in t.rows :: WithCard(t.rows[id]), t.next), |Drawable(t)|)
  }

  /** A second run writes the same URLs again: the table stays as it is and the count repeats. */
  lemma UpdateRecipeImagesTwice(t: Table<RecipeRow>)
    ensures var r := UpdateRecipeImages(t);
            UpdateRecipeImages(r.0) == r
  {
    var r := UpdateRecipeImages(t);
    var r2 := UpdateRecipeImages(r.0);
    forall id | id in r.0.rows ensures r2.0.rows[id] == r.0.rows[id] && r.0.rows[id].description == t.rows[id].description { }
    assert r2.0.rows == r.0.rows;
    assert Drawable(r.0) == Drawable(t);
  }
}
