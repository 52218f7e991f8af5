/**
 * The image-URL rewrite of the maintenance scripts: every recipe whose image URL is non-empty and
 * contains one of a list of marker strings gets the local path `/images/<name>.jpg`; the others
 * are left alone, and the script reports how many it rewrote. The two scripts differ only in
 * their markers, so the rule is stated once, over the marker list.
 */
module ImageRewrite {
  import opened Wrappers
  import opened Text
  import opened Recipes
  import opened RecordStore

  /** `f"/images/{name}.jpg"`. */
  function LocalImage(name: string): string {
    "/images/" + name + ".jpg"
  }

  /** Some marker occurs in `s`. */
  predicate MentionsAny(s: string, marks: seq<string>) {
    exists j :: 0 <= j < |marks| && Contains(s, marks[j])
  }

  /** `recipe.image_url and (m1 in recipe.image_url or ...)`: the URL is set, non-empty and carries a marker. */
  predicate Stale(url: Option<string>, marks: seq<string>) {
    Truthy(url) && MentionsAny(url.value, marks)
  }

  /** The keys of the recipes the rule applies to. */
  function StaleIds(t: Table<RecipeRow>, marks: seq<string>): (r: set<int>)
    ensures forall id :: id in r <==> id in t.rows && Stale(t.rows[id].imageUrl, marks)
  {
    set id | id in t.rows && Stale(t.rows[id].imageUrl, marks)
  }

  /** One recipe under the rule. */
  function RewriteRow(row: RecipeRow, marks: seq<string>): RecipeRow {
    if Stale(row.imageUrl, marks) then row.(imageUrl := Some(LocalImage(row.name))) else row
  }

  /** The table after the loop and its commit, with the number of rows rewritten. */
  function RewriteImages(t: Table<RecipeRow>, marks: seq<string>): (r: (Table<RecipeRow>, nat))
    ensures r.0.next == t.next && r.0.rows.Keys == t.rows.Keys
    ensures forall id :: id in t.rows && Stale(t.rows[id].imageUrl, marks) ==>
      r.0.rows[id] == t.rows[id].(imageUrl := Some(LocalImage(t.rows[id].name)))
    ensures forall id :: id in t.rows && !Stale(t.rows[id].imageUrl, marks) ==> r.0.rows[id] == t.rows[id]
    ensures r.1 == |StaleIds(t, marks)|
  {
    (Table(map id | id in t.rows :: RewriteRow(t.rows[id], marks), t.next), |StaleIds(t, marks)|)
  }

  /** The keys below `hi` the rule applies to. */
  function StaleBelow(t: Table<RecipeRow>, marks: seq<string>, hi: int): set<int> {
    set id | id in t.rows && id < hi && Stale(t.rows[id].imageUrl, marks)
  }

  /**
   * The loop of the scripts, visiting the recipes in key order: a rewritten row bumps the counter.
   * It ends with the table and the count the rule describes.
   */
  method UpdateImages(t: Table<RecipeRow>, marks: seq<string>) returns (t': Table<RecipeRow>, count: nat)
    requires Valid(t)
    ensures t' == RewriteImages(t, marks).0 && count == RewriteImages(t, marks).1
  {
    var rows := t.rows;
    count := 0;
    var i := 1;
    while i < t.next
      invariant 1 <= i <= t.next
      invariant rows.Keys == t.rows.Keys
      invariant forall id :: id in t.rows && id < i ==> rows[id] == RewriteRow(t.rows[id], marks)
      invariant forall id :: id in t.rows && i <= id ==> rows[id] == t.rows[id]
      invariant count == |StaleBelow(t, marks, i)|
    {
      StaleBelowStep(t, marks, i);
      if i in rows && Stale(rows[i].imageUrl, marks) {
        rows := rows[i := rows[i].(imageUrl := Some(LocalImage(rows[i].name)))];
        count := count + 1;
      }
      i := i + 1;
    }
    StaleBelowAll(t, marks);
    t' := Table(rows, t.next);
    RewrittenTable(t, marks, rows);
  }

  /** A map over the same keys holding each row under the rule is the rewritten table. */
  lemma RewrittenTable(t: Table<RecipeRow>, marks: seq<string>, rows: map<int, RecipeRow>)
    requires rows.Keys == t.rows.Keys
    requires forall id :: id in t.rows ==> rows[id] == RewriteRow(t.rows[id], marks)
    ensures Table(rows, t.next) == RewriteImages(t, marks).0
  {
    var r := RewriteImages(t, marks).0;
    forall id | id in t.rows ensures rows[id] == r.rows[id] { }
    assert rows == r.rows;
  }

  /** One more key under the bound adds that key exactly when the rule applies to it. */
  lemma StaleBelowStep(t: Table<RecipeRow>, marks: seq<string>, i: int)
    ensures i in t.rows && Stale(t.rows[i].imageUrl, marks) ==>
      i !in StaleBelow(t, marks, i) && StaleBelow(t, marks, i + 1) == StaleBelow(t, marks, i) + {i}
    ensures !(i in t.rows && Stale(t.rows[i].imageUrl, marks)) ==> StaleBelow(t, marks, i + 1) == StaleBelow(t, marks, i)
  {
  }

  /** Below the counter of a valid table lie all its keys. */
  lemma StaleBelowAll(t: Table<RecipeRow>, marks: seq<string>)
    requires Valid(t)
    ensures StaleBelow(t, marks, t.next) == StaleIds(t, marks)
  {
  }

  /** The two-character windows of "/images/". */
  const FramePairs: set<string> := {"/i", "im", "ma", "ag", "ge", "es", "s/"}

  /**
   * A marker that cannot straddle the frame of a local path: it cannot start inside "/images/"
   * (it does not start with '/' nor with one of that prefix's two-character windows), and its
   * last character is not one of ".jpg".
   */
  predicate Framed(k: string) {
    |k| >= 2 && k[0] != '/' && k[..2] !in FramePairs && k[|k| - 1] !in ".jpg"
  }

  /** Each character of the "/images/" prefix followed by the next forms one of its windows. */
  lemma FrameWindows(n: string)
    ensures var s := LocalImage(n);
      s[7] == '/' && forall p :: 0 <= p < 7 ==> [s[p], s[p + 1]] in FramePairs
  {
    var s := LocalImage(n);
    forall p | 0 <= p < 7 ensures [s[p], s[p + 1]] in FramePairs {
      assert s[p] == "/images/"[p] && s[p + 1] == "/images/"[p + 1];
    }
  }

  /** The window starting at position `i` of a local path, when it starts inside the prefix. */
  lemma PrefixWindow(n: string, i: int)
    requires 0 <= i && i + 1 < |LocalImage(n)|
    ensures var s := LocalImage(n);
      (i < 7 ==> [s[i], s[i + 1]] in FramePairs) && (i == 7 ==> s[i] == '/')
  {
    FrameWindows(n);
  }

  /** Past the recipe name, a local path holds only characters of its extension. */
  lemma SuffixChar(n: string, p: int)
    requires 0 <= p < |LocalImage(n)|
    ensures p >= 8 + |n| ==> LocalImage(n)[p] in ".jpg"
  {
  }

  /** A window of a local path that lies within the recipe name is that window of the name. */
  lemma NameSlice(n: string, a: int, b: int)
    requires 8 <= a <= b <= 8 + |n|
    ensures LocalImage(n)[a..b] == n[a - 8..b - 8]
  {
    var s := LocalImage(n);
    assert forall j :: 8 <= j < 8 + |n| ==> s[j] == n[j - 8];
  }

  /** A framed marker occurs in a local path only inside the recipe name. */
  lemma FramedMarkInName(n: string, k: string)
    requires Framed(k)
    ensures Contains(LocalImage(n), k) <==> Contains(n, k)
  {
    var s := LocalImage(n);
    if Contains(s, k) {
      var i :| 0 <= i <= |s| - |k| && OccursAt(s, k, i);
      FrameWindows(n);
      assert s[i] == k[0] by { assert s[i..i + |k|][0] == s[i]; }
      assert s[i + 1] == k[1] by { assert s[i..i + |k|][1] == s[i + 1]; }
      assert k[..2] == [k[0], k[1]];
      assert s[i + |k| - 1] == k[|k| - 1] by { assert s[i..i + |k|][|k| - 1] == s[i + |k| - 1]; }
      PrefixWindow(n, i);
      assert 8 <= i;
      SuffixChar(n, i + |k| - 1);
      assert i + |k| <= 8 + |n|;
      NameSlice(n, i, i + |k|);
      assert OccursAt(n, k, i - 8);
    }
    if Contains(n, k) {
      ContainsInContext("/images/", n, ".jpg", k);
    }
  }

  /** With framed markers, a local path carries a marker exactly when the recipe name does. */
  lemma LocalImageStale(n: string, marks: seq<string>)
    requires forall j :: 0 <= j < |marks| ==> Framed(marks[j])
    ensures Stale(Some(LocalImage(n)), marks) <==> MentionsAny(n, marks)
  {
    forall j | 0 <= j < |marks| ensures Contains(LocalImage(n), marks[j]) <==> Contains(n, marks[j]) {
      FramedMarkInName(n, marks[j]);
    }
  }

  /**
   * Running the rewrite again leaves the table as it is; with framed markers, it counts again exactly
   * the rows it rewrote the first time whose recipe name itself carries a marker.
   */
  lemma RewriteTwice(t: Table<RecipeRow>, marks: seq<string>)
    requires forall j :: 0 <= j < |marks| ==> Framed(marks[j])
    ensures var t1 := RewriteImages(t, marks).0;
            RewriteImages(t1, marks).0 == t1 &&
            StaleIds(t1, marks) == set id | id in StaleIds(t, marks) && MentionsAny(t.rows[id].name, marks)
  {
    var t1 := RewriteImages(t, marks).0;
    var t2 := RewriteImages(t1, marks).0;
    forall id | id in t1.rows ensures t2.rows[id] == t1.rows[id] {
      if Stale(t.rows[id].imageUrl, marks) {
        LocalImageStale(t.rows[id].name, marks);
      }
    }
    forall id | id in t1.rows
      ensures Stale(t1.rows[id].imageUrl, marks) <==> Stale(t.rows[id].imageUrl, marks) && MentionsAny(t.rows[id].name, marks)
    {
      if Stale(t.rows[id].imageUrl, marks) {
        LocalImageStale(t.rows[id].name, marks);
      }
    }
  }

  /** With framed markers and no recipe name carrying one, a second run rewrites nothing. */
  lemma SecondRunRewritesNothing(t: Table<RecipeRow>, marks: seq<string>)
    requires forall j :: 0 <= j < |marks| ==> Framed(marks[j])
    requires forall id :: id in t.rows ==> !MentionsAny(t.rows[id].name, marks)
    ensures var t1 := RewriteImages(t, marks).0;
            RewriteImages(t1, marks) == (t1, 0)
  {
    RewriteTwice(t, marks);
    var t1 := RewriteImages(t, marks).0;
    forall id ensures id !in StaleIds(t1, marks) {
      if id in StaleIds(t, marks) {
        assert !MentionsAny(t.rows[id].name, marks);
      }
    }
    assert StaleIds(t1, marks) == {};
  }
}
