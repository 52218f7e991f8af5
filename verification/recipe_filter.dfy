/**
 * The keyword filters of the recipe query service. Each filter is given twice: as a
 * declarative predicate (what it means for a recipe to be excluded) and as a scan shaped like
 * the service's nested loops with early exits; the scans are proved to decide the predicates.
 */
module RecipeFilter {
  import opened Wrappers
  import opened Text
  import opened Recipes
  import opened Keywords
  import Seqs

  /** `k in recipe.name or k in (recipe.description or '')`. */
  predicate InNameOrDescription(r: Recipe, k: string) {
    Contains(r.name, k) || Contains(DescriptionText(r), k)
  }

  /** Some linked ingredient's name contains `k` (a missing ingredient reads as ''). */
  predicate InSomeIngredient(r: Recipe, k: string) {
    exists i :: 0 <= i < |r.links| && Contains(LinkName(r.links[i]), k)
  }

  /** The recipe mentions `k` in its name, its description or one of its ingredient names. */
  predicate Mentions(r: Recipe, k: string) {
    InNameOrDescription(r, k) || InSomeIngredient(r, k)
  }

  // ---------------------------------------------------------------- allergies

  /** `(a, j)` indexes keyword `j` of allergy tag `a`. */
  predicate KeywordIndex(allergies: seq<string>, a: int, j: int) {
    0 <= a < |allergies| && 0 <= j < |AllergyKeywords(allergies[a])|
  }

  /** Some allergy tag has a keyword (table entry, or the tag itself) that the recipe mentions. */
  ghost predicate HasAllergen(r: Recipe, allergies: seq<string>) {
    exists a, j :: KeywordIndex(allergies, a, j) && Mentions(r, AllergyKeywords(allergies[a])[j])
  }

  /** Inner loop over one tag's keywords against name and description. */
  function TextHitsKeywords(r: Recipe, ks: seq<string>): (b: bool)
    ensures b <==> exists j :: 0 <= j < |ks| && InNameOrDescription(r, ks[j])
  {
    if |ks| == 0 then false
    else if InNameOrDescription(r, ks[0]) then true
    else TextHitsKeywords(r, ks[1..])
  }

  /** First phase of the allergy scan: every tag against name and description. */
  function TextHitsAllergies(r: Recipe, allergies: seq<string>): (b: bool)
    ensures b <==> (exists a, j :: KeywordIndex(allergies, a, j) && InNameOrDescription(r, AllergyKeywords(allergies[a])[j]))
  {
    if |allergies| == 0 then false
    else if TextHitsKeywords(r, AllergyKeywords(allergies[0])) then true
    else TextHitsAllergies(r, allergies[1..])
  }

  /** Some keyword of `ks` occurs in `name`. */
  function NameHitsKeywords(name: string, ks: seq<string>): (b: bool)
    ensures b <==> exists j :: 0 <= j < |ks| && Contains(name, ks[j])
  {
    if |ks| == 0 then false
    else if Contains(name, ks[0]) then true
    else NameHitsKeywords(name, ks[1..])
  }

  /** Second phase for one ingredient name: every tag's keywords against it. */
  function NameHitsAllergies(name: string, allergies: seq<string>): (b: bool)
    ensures b <==> (exists a, j :: KeywordIndex(allergies, a, j) && Contains(name, AllergyKeywords(allergies[a])[j]))
  {
    if |allergies| == 0 then false
    else if NameHitsKeywords(name, AllergyKeywords(allergies[0])) then true
    else NameHitsAllergies(name, allergies[1..])
  }

  /** Second phase of the allergy scan: every linked ingredient against every tag. */
  function LinksHitAllergies(links: seq<Link>, allergies: seq<string>): (b: bool)
    ensures b <==> (exists i, a, j :: 0 <= i < |links| && KeywordIndex(allergies, a, j) && Contains(LinkName(links[i]), AllergyKeywords(allergies[a])[j]))
  {
    if |links| == 0 then false
    else if NameHitsAllergies(LinkName(links[0]), allergies) then true
    else
      var rest := LinksHitAllergies(links[1..], allergies);
      assert rest ==> (exists i, a, j :: 0 <= i < |links| && KeywordIndex(allergies, a, j) && Contains(LinkName(links[i]), AllergyKeywords(allergies[a])[j])) by {
        if rest {
          var i, a, j :| 0 <= i < |links[1..]| && 0 <= a < |allergies| &&
            0 <= j < |AllergyKeywords(allergies[a])| &&
            Contains(LinkName(links[1..][i]), AllergyKeywords(allergies[a])[j]);
          assert links[1..][i] == links[i + 1];
        }
      }
      rest
  }

  /** The scan the service runs for one recipe: name and description first, then ingredients. */
  function ScanForAllergen(r: Recipe, allergies: seq<string>): (b: bool)
    ensures b <==> HasAllergen(r, allergies)
  {
    var textHit := TextHitsAllergies(r, allergies);
    var linkHit := LinksHitAllergies(r.links, allergies);
    if textHit then true else linkHit
  }

  /** `_filter_by_allergies`: the recipes, in order, that contain no allergen. */
  function FilterByAllergies(recipes: seq<Recipe>, allergies: seq<string>): (out: seq<Recipe>)
    ensures forall i :: 0 <= i < |out| ==> out[i] in recipes && !HasAllergen(out[i], allergies)
    ensures forall i :: 0 <= i < |recipes| && !HasAllergen(recipes[i], allergies) ==> recipes[i] in out
    ensures Seqs.IsSubsequence(out, recipes)
  {
    Seqs.FilterIsSubsequence(recipes, r => !ScanForAllergen(r, allergies));
    Seqs.Filter(recipes, r => !ScanForAllergen(r, allergies))
  }

  // ---------------------------------------------------------------- dietary preferences

  /** No exclude keyword is mentioned, and, when the rule has required keywords, one of them is. */
  predicate SatisfiesRule(r: Recipe, rule: DietRule) {
    (forall j :: 0 <= j < |rule.exclude| ==> !Mentions(r, rule.exclude[j])) &&
    (|rule.requireAny| > 0 ==> exists j :: 0 <= j < |rule.requireAny| && Mentions(r, rule.requireAny[j]))
  }

  /** The recipe satisfies the rule of every listed preference; unlisted preferences impose nothing. */
  predicate MeetsPreferences(r: Recipe, prefs: seq<string>) {
    forall p :: 0 <= p < |prefs| && DietaryRule(prefs[p]).Some? ==> SatisfiesRule(r, DietaryRule(prefs[p]).value)
  }

  /** The ingredient loop for one keyword. */
  function AnyLinkContains(links: seq<Link>, k: string): (b: bool)
    ensures b <==> exists i :: 0 <= i < |links| && Contains(LinkName(links[i]), k)
  {
    if |links| == 0 then false
    else if Contains(LinkName(links[0]), k) then true
    else
      var rest := AnyLinkContains(links[1..], k);
      assert rest ==> Contains(LinkName(links[1..][0]), k) || exists i :: 1 <= i < |links| && Contains(LinkName(links[i]), k) by {
        if rest {
          var i :| 0 <= i < |links[1..]| && Contains(LinkName(links[1..][i]), k);
          assert links[1..][i] == links[i + 1];
        }
      }
      rest
  }

  /** The exclude loop: keywords in order, name and description first, then the ingredients. */
  function NoExcludedKeyword(r: Recipe, ks: seq<string>): (b: bool)
    ensures b <==> forall j :: 0 <= j < |ks| ==> !Mentions(r, ks[j])
  {
    if |ks| == 0 then true
    else if InNameOrDescription(r, ks[0]) then false
    else if AnyLinkContains(r.links, ks[0]) then false
    else
      var rest := NoExcludedKeyword(r, ks[1..]);
      assert rest ==> forall j :: 0 <= j < |ks| ==> !Mentions(r, ks[j]) by {
        if rest {
          forall j | 0 <= j < |ks|
            ensures !Mentions(r, ks[j])
          {
            if j > 0 {
              assert ks[j] == ks[1..][j - 1];
            }
          }
        }
      }
      rest
  }

  /** The include loop: stops at the first keyword found in the text or an ingredient. */
  function SomeRequiredKeyword(r: Recipe, ks: seq<string>): (b: bool)
    ensures b <==> exists j :: 0 <= j < |ks| && Mentions(r, ks[j])
  {
    if |ks| == 0 then false
    else if InNameOrDescription(r, ks[0]) then true
    else if AnyLinkContains(r.links, ks[0]) then true
    else
      var rest := SomeRequiredKeyword(r, ks[1..]);
      assert rest ==> exists j :: 0 <= j < |ks| && Mentions(r, ks[j]) by {
        if rest {
          var j :| 0 <= j < |ks[1..]| && Mentions(r, ks[1..][j]);
          assert ks[1..][j] == ks[j + 1];
        }
      }
      rest
  }

  /** The preference loop of `_filter_by_dietary_preferences` for one recipe. */
  function ScanPreferences(r: Recipe, prefs: seq<string>): (b: bool)
    ensures b <==> MeetsPreferences(r, prefs)
  {
    if |prefs| == 0 then true
    else match DietaryRule(prefs[0])
      case None =>
        var rest := ScanPreferences(r, prefs[1..]);
        assert rest <==> MeetsPreferences(r, prefs) by {
          if rest {
            forall p | 0 <= p < |prefs| && DietaryRule(prefs[p]).Some?
              ensures SatisfiesRule(r, DietaryRule(prefs[p]).value)
            {
              assert p > 0;
              assert prefs[p] == prefs[1..][p - 1];
            }
          } else {
            var p :| 0 <= p < |prefs[1..]| && DietaryRule(prefs[1..][p]).Some? &&
              !SatisfiesRule(r, DietaryRule(prefs[1..][p]).value);
            assert prefs[1..][p] == prefs[p + 1];
          }
        }
        rest
      case Some(rule) =>
        if !NoExcludedKeyword(r, rule.exclude) then false
        else if |rule.requireAny| > 0 && !SomeRequiredKeyword(r, rule.requireAny) then false
        else
          var rest := ScanPreferences(r, prefs[1..]);
          assert rest <==> MeetsPreferences(r, prefs) by {
            if rest {
              forall p | 0 <= p < |prefs| && DietaryRule(prefs[p]).Some?
                ensures SatisfiesRule(r, DietaryRule(prefs[p]).value)
              {
                if p > 0 {
                  assert prefs[p] == prefs[1..][p - 1];
                }
              }
            } else {
              var p :| 0 <= p < |prefs[1..]| && DietaryRule(prefs[1..][p]).Some? &&
                !SatisfiesRule(r, DietaryRule(prefs[1..][p]).value);
              assert prefs[1..][p] == prefs[p + 1];
            }
          }
          rest
  }

  /** `_filter_by_dietary_preferences`: the recipes, in order, that meet every listed preference. */
  function FilterByDietaryPreferences(recipes: seq<Recipe>, prefs: seq<string>): (out: seq<Recipe>)
    ensures forall i :: 0 <= i < |out| ==> out[i] in recipes && MeetsPreferences(out[i], prefs)
    ensures forall i :: 0 <= i < |recipes| && MeetsPreferences(recipes[i], prefs) ==> recipes[i] in out
    ensures Seqs.IsSubsequence(out, recipes)
  {
    Seqs.FilterIsSubsequence(recipes, r => ScanPreferences(r, prefs));
    Seqs.Filter(recipes, r => ScanPreferences(r, prefs))
  }

  // ---------------------------------------------------------------- properties

  /** An allergy keyword hit for `a + b` is a hit for `a` or for `b`, and conversely. */
  lemma HasAllergenAppend(r: Recipe, a: seq<string>, b: seq<string>)
    ensures HasAllergen(r, a + b) <==> HasAllergen(r, a) || HasAllergen(r, b)
  {
    if HasAllergen(r, a + b) {
      var t, j :| KeywordIndex(a + b, t, j) && Mentions(r, AllergyKeywords((a + b)[t])[j]);
      if t < |a| {
        assert (a + b)[t] == a[t];
        assert KeywordIndex(a, t, j);
      } else {
        assert (a + b)[t] == b[t - |a|];
        assert KeywordIndex(b, t - |a|, j);
      }
    }
    if HasAllergen(r, a) {
      var t, j :| KeywordIndex(a, t, j) && Mentions(r, AllergyKeywords(a[t])[j]);
      assert (a + b)[t] == a[t];
      assert KeywordIndex(a + b, t, j);
    }
    if HasAllergen(r, b) {
      var t, j :| KeywordIndex(b, t, j) && Mentions(r, AllergyKeywords(b[t])[j]);
      assert (a + b)[|a| + t] == b[t];
      assert KeywordIndex(a + b, |a| + t, j);
    }
  }

  /** Filtering by one allergy list and then another is filtering once by both lists. */
  lemma AllergyFiltersCompose(recipes: seq<Recipe>, a: seq<string>, b: seq<string>)
    ensures FilterByAllergies(FilterByAllergies(recipes, a), b) == FilterByAllergies(recipes, a + b)
  {
    var p := (r: Recipe) => !ScanForAllergen(r, a);
    var q := (r: Recipe) => !ScanForAllergen(r, b);
    var pq := (r: Recipe) => !ScanForAllergen(r, a + b);
    forall r: Recipe
      ensures pq(r) == (p(r) && q(r))
    {
      HasAllergenAppend(r, a, b);
    }
    Seqs.FilterFuse(recipes, p, q, pq);
  }

  /** Applying the allergy filter a second time changes nothing. */
  lemma AllergyFilterIdempotent(recipes: seq<Recipe>, allergies: seq<string>)
    ensures FilterByAllergies(FilterByAllergies(recipes, allergies), allergies) == FilterByAllergies(recipes, allergies)
  {
    Seqs.FilterIdempotent(recipes, r => !ScanForAllergen(r, allergies));
  }

  /** With no allergies every recipe is kept (so skipping the filter for an empty list is harmless). */
  lemma NoAllergiesKeepsAll(recipes: seq<Recipe>)
    ensures FilterByAllergies(recipes, []) == recipes
  {
    Seqs.FilterKeepsAll(recipes, r => !ScanForAllergen(r, []));
  }

  /**
   * An empty allergy tag is not in the table, so it becomes its own keyword; the empty string
   * occurs in every name, so the filter then drops every recipe.
   */
  lemma EmptyAllergyTagDropsAll(recipes: seq<Recipe>, allergies: seq<string>)
    requires "" in allergies
    ensures FilterByAllergies(recipes, allergies) == []
  {
    var t :| 0 <= t < |allergies| && allergies[t] == "";
    assert AllergyKeywords("") == [""];
    forall i | 0 <= i < |recipes|
      ensures ScanForAllergen(recipes[i], allergies)
    {
      EmptyIsEverywhere(recipes[i].name);
      assert KeywordIndex(allergies, t, 0);
      assert Mentions(recipes[i], AllergyKeywords(allergies[t])[0]);
    }
    Seqs.FilterDropsAll(recipes, r => !ScanForAllergen(r, allergies));
  }

  /** A preference list `p + q` is met exactly when both `p` and `q` are. */
  lemma MeetsPreferencesAppend(r: Recipe, p: seq<string>, q: seq<string>)
    ensures MeetsPreferences(r, p + q) <==> MeetsPreferences(r, p) && MeetsPreferences(r, q)
  {
    if MeetsPreferences(r, p) && MeetsPreferences(r, q) {
      forall t | 0 <= t < |p + q| && DietaryRule((p + q)[t]).Some?
        ensures SatisfiesRule(r, DietaryRule((p + q)[t]).value)
      {
        if t < |p| {
          assert (p + q)[t] == p[t];
        } else {
          assert (p + q)[t] == q[t - |p|];
        }
      }
    }
    if MeetsPreferences(r, p + q) {
      forall t | 0 <= t < |p| && DietaryRule(p[t]).Some?
        ensures SatisfiesRule(r, DietaryRule(p[t]).value)
      {
        assert (p + q)[t] == p[t];
      }
      forall t | 0 <= t < |q| && DietaryRule(q[t]).Some?
        ensures SatisfiesRule(r, DietaryRule(q[t]).value)
      {
        assert (p + q)[|p| + t] == q[t];
      }
    }
  }

  /** Filtering by one preference list and then another is filtering once by both lists. */
  lemma DietaryFiltersCompose(recipes: seq<Recipe>, p: seq<string>, q: seq<string>)
    ensures FilterByDietaryPreferences(FilterByDietaryPreferences(recipes, p), q) == FilterByDietaryPreferences(recipes, p + q)
  {
    var fp := (r: Recipe) => ScanPreferences(r, p);
    var fq := (r: Recipe) => ScanPreferences(r, q);
    var fpq := (r: Recipe) => ScanPreferences(r, p + q);
    forall r: Recipe
      ensures fpq(r) == (fp(r) && fq(r))
    {
      MeetsPreferencesAppend(r, p, q);
    }
    Seqs.FilterFuse(recipes, fp, fq, fpq);
  }

  /** Preferences the table does not list (`gluten-free`, `keto`, ...) filter nothing out. */
  lemma UnlistedPreferencesKeepAll(recipes: seq<Recipe>, prefs: seq<string>)
    requires forall t :: 0 <= t < |prefs| ==> DietaryRule(prefs[t]).None?
    ensures FilterByDietaryPreferences(recipes, prefs) == recipes
  {
    Seqs.FilterKeepsAll(recipes, r => ScanPreferences(r, prefs));
  }

  /** The service filters allergies before preferences; the other order gives the same list. */
  lemma AllergyAndDietaryFiltersCommute(recipes: seq<Recipe>, allergies: seq<string>, prefs: seq<string>)
    ensures FilterByDietaryPreferences(FilterByAllergies(recipes, allergies), prefs) ==
            FilterByAllergies(FilterByDietaryPreferences(recipes, prefs), allergies)
  {
    Seqs.FilterCommutes(recipes, r => !ScanForAllergen(r, allergies), r => ScanPreferences(r, prefs));
  }

  /**
   * The vegetarian rule excludes the character for chicken, which is also the first character
   * of the word for (chicken) egg, so a tomato-and-egg stir fry is not vegetarian.
   */
  lemma VegetarianRejectsEggDish(r: Recipe)
    requires r.name == "西红柿炒鸡蛋"
    ensures !MeetsPreferences(r, ["vegetarian"])
  {
    var rule := DietaryRule("vegetarian").value;
    assert rule.exclude[1] == "鸡";
    assert OccursAt(r.name, "鸡", 4);
    assert Mentions(r, rule.exclude[1]);
    assert !SatisfiesRule(r, rule);
    assert ["vegetarian"][0] == "vegetarian";
  }
}
