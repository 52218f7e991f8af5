/**
 * The relational store behind the route handlers and seeding scripts, as immutable tables.
 * A table with an autoincrement key maps ids to rows and remembers the next id to hand out;
 * `first()` on a filtered query is the matching row with the smallest id (insertion order).
 * A recipe's steps and ingredient links are kept inside its row, in insertion order, so that
 * deleting a recipe takes them with it as the cascade on the recipe relationship does.
 */
module RecordStore {
  import opened Wrappers
  import opened Text
  import Seqs

  /** Rows by primary key, and the key the next insert receives. */
  datatype Table<T> = Table(rows: map<int, T>, next: int)

  /** Every stored key was handed out earlier: it lies in `1 .. next - 1`. */
  predicate Valid<T>(t: Table<T>) {
    1 <= t.next && forall id :: id in t.rows ==> 1 <= id < t.next
  }

  function EmptyTable<T>(): (t: Table<T>)
    ensures Valid(t) && t.rows == map[]
  {
    Table(map[], 1)
  }

  /** An insert: the new row gets the next key and every old row keeps its key and value. */
  function Insert<T>(t: Table<T>, row: T): (r: (Table<T>, int))
    requires Valid(t)
    ensures Valid(r.0) && r.1 !in t.rows && r.1 in r.0.rows && r.0.rows[r.1] == row
    ensures forall id :: id in t.rows ==> id in r.0.rows && r.0.rows[id] == t.rows[id]
    ensures forall id :: id in r.0.rows ==> id in t.rows || id == r.1
    ensures r.0.next == t.next + 1
  {
    (Table(t.rows[t.next := row], t.next + 1), t.next)
  }

  /** `t` with every row of `s` still present and unchanged. */
  predicate Extends<T(==)>(s: Table<T>, t: Table<T>) {
    forall id :: id in s.rows ==> id in t.rows && t.rows[id] == s.rows[id]
  }

  /** A table that extends an extension of `s` extends `s`. */
  lemma ExtendsTrans<T>(s: Table<T>, t: Table<T>, u: Table<T>)
    requires Extends(s, t) && Extends(t, u)
    ensures Extends(s, u)
  {
  }

  /** A key of `s` is still stored, with the same row, in a table extending `s`. */
  lemma ExtendsHas<T>(s: Table<T>, t: Table<T>, id: int)
    requires Extends(s, t) && id in s.rows
    ensures id in t.rows && t.rows[id] == s.rows[id]
  {
  }

  /** The smallest key in `lo .. hi - 1` whose row satisfies `p`. */
  function FirstFrom<T>(rows: map<int, T>, p: T -> bool, lo: int, hi: int): (r: Option<int>)
    ensures r.Some? ==> lo <= r.value < hi && r.value in rows && p(rows[r.value])
    ensures r.Some? ==> forall id :: lo <= id < r.value && id in rows ==> !p(rows[id])
    ensures r.None? ==> (forall id :: lo <= id < hi && id in rows ==> !p(rows[id]))
    decreases hi - lo
  {
    if lo >= hi then None
    else if lo in rows && p(rows[lo]) then Some(lo)
    else FirstFrom(rows, p, lo + 1, hi)
  }

  /** `query.filter(p).first()`: the earliest inserted row satisfying `p`, if any. */
  function First<T>(t: Table<T>, p: T -> bool): (r: Option<int>)
    requires Valid(t)
    ensures r.Some? ==> r.value in t.rows && p(t.rows[r.value])
    ensures r.Some? ==> forall id :: id in t.rows && id < r.value ==> !p(t.rows[id])
    ensures r.None? <==> forall id :: id in t.rows ==> !p(t.rows[id])
  {
    FirstFrom(t.rows, p, 1, t.next)
  }

  /** The keys in `lo .. hi - 1` whose rows satisfy `p`, ascending. */
  function IdsFrom<T>(rows: map<int, T>, p: T -> bool, lo: int, hi: int): (r: seq<int>)
    ensures forall i :: 0 <= i < |r| ==> lo <= r[i] < hi && r[i] in rows && p(rows[r[i]])
    ensures forall i, j :: 0 <= i < j < |r| ==> r[i] < r[j]
    ensures (forall id :: lo <= id < hi && id in rows && p(rows[id]) ==> id in r)
    decreases hi - lo
  {
    if lo >= hi then []
    else
      var rest := IdsFrom(rows, p, lo + 1, hi);
      if lo in rows && p(rows[lo]) then [lo] + rest else rest
  }

  /** `query.filter(p).all()`, in insertion order. */
  function Where<T>(t: Table<T>, p: T -> bool): (r: seq<int>)
    requires Valid(t)
    ensures forall i :: 0 <= i < |r| ==> r[i] in t.rows && p(t.rows[r[i]])
    ensures forall i, j :: 0 <= i < j < |r| ==> r[i] < r[j]
    ensures forall id :: id in t.rows && p(t.rows[id]) ==> id in r
  {
    IdsFrom(t.rows, p, 1, t.next)
  }

  /** `min(per_page, cap)`: the page size a list route accepts. */
  function PerPage(requested: int, cap: int): (n: int)
    ensures n <= cap && n <= requested
    ensures n == requested || n == cap
  {
    if requested < cap then requested else cap
  }

  // ---------------------------------------------------------------- pagination

  /** One page of a listing: the ids shown, the number of matching rows and the number of pages. */
  datatype Page = Page(items: seq<int>, total: int, pages: int)

  /** `ceil(total / per_page)`: the number of pages needed for `n` rows. */
  function PageCount(n: nat, per: int): nat
    requires per >= 1
  {
    (n + per - 1) / per
  }

  /**
   * `query.paginate(page=page, per_page=per)` over the ids in query order. A page number or a
   * page size below one, or a page other than the first with nothing on it, is a 404 (`None`).
   */
  function Paginate(ids: seq<int>, page: int, per: int): (r: Option<Page>)
    ensures r.Some? <==> page >= 1 && per >= 1 && (page == 1 || (page - 1) * per < |ids|)
    ensures r.Some? ==> r.value.total == |ids| && r.value.pages == PageCount(|ids|, per)
    ensures r.Some? ==>
      |r.value.items| == (if |ids| <= (page - 1) * per then 0
                          else if |ids| - (page - 1) * per < per then |ids| - (page - 1) * per
                          else per)
    ensures r.Some? ==> forall k :: 0 <= k < |r.value.items| ==> r.value.items[k] == ids[(page - 1) * per + k]
  {
    if page < 1 || per < 1 then None
    else
      var start := (page - 1) * per;
      if |ids| <= start then
        if page == 1 then Some(Page([], |ids|, PageCount(|ids|, per))) else None
      else
        var end := if |ids| - start < per then |ids| else start + per;
        Some(Page(ids[start..end], |ids|, PageCount(|ids|, per)))
  }

  /**
   * A list route's answer over its ordered ids: the `page` argument (default 1) and the
   * `per_page` argument (default `defaultPer`, capped at `cap`) passed to `paginate`; `None` is the 404.
   */
  function ListPage(ids: seq<int>, page: Option<int>, perPage: Option<int>, defaultPer: int, cap: int): (r: Option<Page>)
    ensures r.None? <==> (page.GetOr(1) < 1 || PerPage(perPage.GetOr(defaultPer), cap) < 1 ||
                          (page.GetOr(1) > 1 && (page.GetOr(1) - 1) * PerPage(perPage.GetOr(defaultPer), cap) >= |ids|))
    ensures r.Some? ==> r.value.total == |ids| && |r.value.items| <= cap && |r.value.items| <= perPage.GetOr(defaultPer)
    ensures r.Some? ==> Seqs.IsSubsequence(r.value.items, ids)
  {
    PageIsSubsequence(ids, page.GetOr(1), PerPage(perPage.GetOr(defaultPer), cap));
    Paginate(ids, page.GetOr(1), PerPage(perPage.GetOr(defaultPer), cap))
  }

  /** A page shows its rows in listing order. */
  lemma PageIsSubsequence(ids: seq<int>, page: int, per: int)
    ensures Paginate(ids, page, per).Some? ==> Seqs.IsSubsequence(Paginate(ids, page, per).value.items, ids)
  {
    var r := Paginate(ids, page, per);
    if r.Some? {
      var start := (page - 1) * per;
      if |ids| <= start {
        assert r.value.items == ids[0..0];
        SliceIsSubsequence(ids, 0, 0);
      } else {
        SliceIsSubsequence(ids, start, start + |r.value.items|);
        assert r.value.items == ids[start..start + |r.value.items|];
      }
    }
  }

  /** Every row a page shows is a row of the listing. */
  lemma PageMembers(r: Option<Page>, ids: seq<int>)
    requires r.Some? ==> Seqs.IsSubsequence(r.value.items, ids)
    ensures r.Some? ==> forall k :: 0 <= k < |r.value.items| ==> r.value.items[k] in ids
  {
    if r.Some? {
      Seqs.SubsequenceMembers(r.value.items, ids);
    }
  }

  /** A contiguous slice is a subsequence. */
  lemma {:induction false} SliceIsSubsequence<T>(s: seq<T>, i: int, j: int)
    requires 0 <= i <= j <= |s|
    ensures Seqs.IsSubsequence(s[i..j], s)
    decreases |s|
  {
    if i < j {
      if i == 0 {
        assert s[i..j][1..] == s[1..][0..j - 1];
        SliceIsSubsequence(s[1..], 0, j - 1);
      } else {
        assert s[i..j] == s[1..][i - 1..j - 1];
        SliceIsSubsequence(s[1..], i - 1, j - 1);
      }
    }
  }

  /** With a usable page size, every row of a listing is on some page the route serves. */
  lemma EveryRowListed(ids: seq<int>, perPage: Option<int>, defaultPer: int, cap: int, i: int)
    requires PerPage(perPage.GetOr(defaultPer), cap) >= 1 && 0 <= i < |ids|
    ensures exists p :: (ListPage(ids, Some(p), perPage, defaultPer, cap).Some? &&
                         ids[i] in ListPage(ids, Some(p), perPage, defaultPer, cap).value.items)
  {
    var per := PerPage(perPage.GetOr(defaultPer), cap);
    RowOnItsPage(ids, per, i);
    var p := i / per + 1;
    assert Paginate(ids, p, per).value.items[i % per] == ids[i];
    assert ListPage(ids, Some(p), perPage, defaultPer, cap) == Paginate(ids, p, per);
  }

  /** Every row of a listing is shown on page `i / per + 1`, at position `i % per`. */
  lemma RowOnItsPage(ids: seq<int>, per: int, i: int)
    requires per >= 1 && 0 <= i < |ids|
    ensures var r := Paginate(ids, i / per + 1, per);
      r.Some? && i % per < |r.value.items| && r.value.items[i % per] == ids[i]
  {
    var page := i / per + 1;
    assert (page - 1) * per + i % per == i;
    assert (page - 1) * per <= i;
  }

  /** On a non-empty listing, exactly the pages `1 .. pages` exist. */
  lemma PagesThatExist(ids: seq<int>, page: int, per: int)
    requires per >= 1 && |ids| > 0
    ensures Paginate(ids, page, per).Some? <==> 1 <= page <= PageCount(|ids|, per)
  {
    var n := |ids|;
    var q := PageCount(n, per);
    var rem := (n + per - 1) % per;
    DivMod(n + per - 1, per);
    if page >= 1 {
      StartBeforeEnd(0, per, n, q, rem);
      StartBeforeEnd(page - 1, per, n, q, rem);
    }
  }

  /** Euclidean division by a positive number. */
  lemma DivMod(a: int, per: int)
    requires per >= 1
    ensures a == (a / per) * per + a % per && 0 <= a % per < per
  {
  }

  /** With `n + per - 1 == q * per + rem`, page `k + 1` starts inside the `n` rows exactly when `k < q`. */
  lemma StartBeforeEnd(k: int, per: int, n: int, q: int, rem: int)
    requires per >= 1 && k >= 0 && n + per - 1 == q * per + rem && 0 <= rem < per
    ensures k * per < n <==> k < q
  {
    if k < q {
      MulLe(k, q - 1, per);
      assert (q - 1) * per == q * per - per;
    } else {
      MulLe(q, k, per);
    }
  }

  /** Multiplying by a positive number keeps the order. */
  lemma MulLe(a: int, b: int, per: int)
    requires per >= 1 && a <= b
    ensures a * per <= b * per
  {
    assert b * per - a * per == (b - a) * per;
  }

  /** A page size covering the whole listing puts every row on the first page. */
  lemma OnePageHoldsAll(ids: seq<int>, per: int)
    requires per >= 1 && |ids| <= per
    ensures Paginate(ids, 1, per) == Some(Page(ids, |ids|, if |ids| == 0 then 0 else 1))
  {
    assert ids[0..|ids|] == ids;
  }

  /** The non-empty values of one optional text column, in row order (repeats kept). */
  function ColumnValues<T>(t: Table<T>, col: T -> Option<string>, ids: seq<int>): (r: seq<string>)
    requires forall i :: 0 <= i < |ids| ==> ids[i] in t.rows
    ensures forall i :: 0 <= i < |r| ==> r[i] != "" && exists j :: 0 <= j < |ids| && col(t.rows[ids[j]]) == Some(r[i])
    ensures forall j :: 0 <= j < |ids| && col(t.rows[ids[j]]).Some? && col(t.rows[ids[j]]).value != "" ==>
      col(t.rows[ids[j]]).value in r
  {
    if ids == [] then []
    else
      var rest := ColumnValues(t, col, ids[1..]);
      var c := col(t.rows[ids[0]]);
      assert forall j :: 1 <= j < |ids| ==> ids[j] == ids[1..][j - 1];
      if c.Some? && c.value != "" then [c.value] + rest else rest
  }

  /**
   * `SELECT DISTINCT column` with empty values dropped: every non-empty value of the column once.
   * The database returns distinct values in no promised order; this lists them by first appearance.
   */
  function DistinctValues<T>(t: Table<T>, col: T -> Option<string>): (r: seq<string>)
    requires Valid(t)
    ensures Seqs.NoDups(r)
    ensures forall c :: c in r <==> c != "" && exists id :: id in t.rows && col(t.rows[id]) == Some(c)
  {
    var ids := Where(t, (_: T) => true);
    var values := ColumnValues(t, col, ids);
    var r := Seqs.AddNew([], values);
    forall c ensures c in r <==> c in values {
      AddNewToEmpty(values, c);
    }
    forall c ensures c in values <==> c != "" && exists id :: id in t.rows && col(t.rows[id]) == Some(c) {
      ValuesOfAllRows(t, col, ids, c);
    }
    r
  }

  /** Adding to an empty accumulator keeps exactly the values offered. */
  lemma AddNewToEmpty(values: seq<string>, c: string)
    ensures c in Seqs.AddNew([], values) <==> c in values
  {
    var r := Seqs.AddNew([], values);
    if c in r {
      var i :| 0 <= i < |r| && r[i] == c;
    }
    if c in values {
      var i :| 0 <= i < |values| && values[i] == c;
    }
  }

  /** Over the ids of every row, the column values are those of the whole table. */
  lemma ValuesOfAllRows<T>(t: Table<T>, col: T -> Option<string>, ids: seq<int>, c: string)
    requires forall i :: 0 <= i < |ids| ==> ids[i] in t.rows
    requires forall id :: id in t.rows ==> id in ids
    ensures c in ColumnValues(t, col, ids) <==> c != "" && exists id :: id in t.rows && col(t.rows[id]) == Some(c)
  {
    var values := ColumnValues(t, col, ids);
    if c in values {
      var i :| 0 <= i < |values| && values[i] == c;
      var j :| 0 <= j < |ids| && col(t.rows[ids[j]]) == Some(values[i]);
      assert ids[j] in t.rows && col(t.rows[ids[j]]) == Some(c);
    }
    if c != "" && exists id :: id in t.rows && col(t.rows[id]) == Some(c) {
      var id :| id in t.rows && col(t.rows[id]) == Some(c);
      var j :| 0 <= j < |ids| && ids[j] == id;
      assert col(t.rows[ids[j]]).Some? && col(t.rows[ids[j]]).value != "";
    }
  }

  // ---------------------------------------------------------------- rows

  datatype IngredientRow = IngredientRow(name: string, unit: Option<string>, category: Option<string>, imageUrl: Option<string>)

  /** A step of a recipe; `number` is the stored `step_number`. */
  datatype StepRow = StepRow(number: int, description: string, imageUrl: Option<string>)

  /** A `recipe_ingredients` row of the enclosing recipe. */
  datatype LinkRow = LinkRow(ingredientId: int, amount: real, note: Option<string>)

  datatype RecipeRow = RecipeRow(
    name: string,
    description: Option<string>,
    difficulty: Option<string>,
    cookingTime: Option<int>,
    servings: Option<int>,
    category: Option<string>,
    imageUrl: Option<string>,
    steps: seq<StepRow>,
    links: seq<LinkRow>)

  /** A user; the password hash is not part of the model. `googleId` is the optional Google account id. */
  datatype UserRow = UserRow(username: string, email: string, googleId: Option<string>)

  /** A `user_ingredients` row, keyed by (user, ingredient). */
  datatype PantryRow = PantryRow(amount: Option<real>, expiry: Option<string>)

  datatype ShoppingListRow = ShoppingListRow(userId: int, name: Option<string>)

  datatype ItemRow = ItemRow(listId: int, ingredientId: int, amount: Option<real>, purchased: bool)

  datatype PreferenceRow = PreferenceRow(userId: int, kind: string, value: string)

  datatype FavoriteRow = FavoriteRow(userId: int, recipeId: int)

  datatype Db = Db(
    recipes: Table<RecipeRow>,
    ingredients: Table<IngredientRow>,
    users: Table<UserRow>,
    pantry: map<(int, int), PantryRow>,
    shoppingLists: Table<ShoppingListRow>,
    items: Table<ItemRow>,
    preferences: Table<PreferenceRow>,
    favorites: Table<FavoriteRow>)

  predicate ValidDb(db: Db) {
    Valid(db.recipes) && Valid(db.ingredients) && Valid(db.users) && Valid(db.shoppingLists) &&
    Valid(db.items) && Valid(db.preferences) && Valid(db.favorites)
  }

  /** An HTTP answer of a store route: status, the id of the row it is about, and an error text. */
  datatype Reply = Reply(status: int, id: Option<int>, error: string)

  function Ok(status: int, id: int): Reply {
    Reply(status, Some(id), "")
  }

  function Fail(status: int, error: string): Reply {
    Reply(status, None, error)
  }

  // ---------------------------------------------------------------- ingredient resolution

  /** How a payload names an ingredient: by id, by name (with unit and category for a new one), or both. */
  datatype IngredientRef = IngredientRef(id: Option<int>, name: Option<string>, unit: Option<string>, category: Option<string>)

  /** `Ingredient.query.filter_by(name=name).first()`. */
  function FindByName(t: Table<IngredientRow>, name: string): (r: Option<int>)
    requires Valid(t)
    ensures r.Some? ==> r.value in t.rows && t.rows[r.value].name == name
    ensures r.None? <==> forall id :: id in t.rows ==> t.rows[id].name != name
  {
    First(t, (row: IngredientRow) => row.name == name)
  }

  /** The id part of a reference names a stored ingredient (`Ingredient.query.get`). */
  predicate IdHits(t: Table<IngredientRow>, ref: IngredientRef) {
    ref.id.Some? && ref.id.value in t.rows
  }

  /**
   * The route handlers' "get or create": the id if it names a row, otherwise the first row with the
   * name, otherwise a new row with that name, unit and category. With neither, nothing resolves.
   * Ids are positive, so testing the id for truthiness or for presence in the payload comes to the same.
   */
  function ResolveIngredient(t: Table<IngredientRow>, ref: IngredientRef): (r: (Table<IngredientRow>, Option<int>))
    requires Valid(t)
    ensures Valid(r.0) && Extends(t, r.0)
    ensures r.1.Some? ==> r.1.value in r.0.rows
    ensures IdHits(t, ref) ==> r == (t, ref.id)
    ensures !IdHits(t, ref) && ref.name.None? ==> r == (t, None)
    ensures !IdHits(t, ref) && ref.name.Some? ==>
      r.1.Some? && r.0.rows[r.1.value].name == ref.name.value && FindByName(r.0, ref.name.value) == r.1
    ensures !IdHits(t, ref) && ref.name.Some? ==>
      (r.0 == t <==> FindByName(t, ref.name.value).Some?)
    ensures r.0 != t ==> r.1 == Some(t.next) && r.0.rows == t.rows[t.next := IngredientRow(ref.name.value, ref.unit, ref.category, None)]
  {
    if IdHits(t, ref) then (t, ref.id)
    else if ref.name.None? then (t, None)
    else
      match FindByName(t, ref.name.value)
      case Some(id) => (t, Some(id))
      case None =>
        var (t', id) := Insert(t, IngredientRow(ref.name.value, ref.unit, ref.category, None));
        assert FindByName(t', ref.name.value) == Some(id) by {
          var f := FindByName(t', ref.name.value);
          assert f.Some?;
          assert !(f.value < id);
        }
        assert t' != t by { assert id !in t.rows; }
        (t', Some(id))
  }

  /** Resolving the same name a second time finds the row the first resolution used, and creates nothing. */
  lemma ResolveByNameIsStable(t: Table<IngredientRow>, name: string, unit: Option<string>, category: Option<string>)
    requires Valid(t)
    ensures var (t1, id1) := ResolveIngredient(t, IngredientRef(None, Some(name), unit, category));
            ResolveIngredient(t1, IngredientRef(None, Some(name), unit, category)) == (t1, id1)
  {
    var (t1, id1) := ResolveIngredient(t, IngredientRef(None, Some(name), unit, category));
    assert !IdHits(t1, IngredientRef(None, Some(name), unit, category));
    assert FindByName(t1, name) == id1;
  }
}
