/**
 * The `/users/<id>/favorites` routes. The table carries a unique constraint on (user, recipe);
 * the add route checks it before inserting, so the routes alone never break it.
 */
module FavoriteRoutes {
  import opened Wrappers
  import opened RecordStore
  import Seqs

  /** The page-size cap of the listing. */
  const MaxPerPage: int := 50

  /** The page size when the query does not give one. */
  const DefaultPerPage: int := 10

  /** The row of the user's favorite for the recipe, if any. */
  function FavoriteOf(t: Table<FavoriteRow>, userId: int, recipeId: int): (r: Option<int>)
    requires Valid(t)
    ensures r.Some? ==> r.value in t.rows && t.rows[r.value] == FavoriteRow(userId, recipeId)
    ensures r.None? <==> forall id :: id in t.rows ==> t.rows[id] != FavoriteRow(userId, recipeId)
  {
    First(t, (f: FavoriteRow) => f == FavoriteRow(userId, recipeId))
  }

  /** The unique constraint on (user_id, recipe_id). */
  predicate UniquePairs(t: Table<FavoriteRow>) {
    forall a, b :: a in t.rows && b in t.rows && t.rows[a] == t.rows[b] ==> a == b
  }

  /**
   * `POST /users/<id>/favorites`: user and recipe must exist, and the pair must be new.
   * `recipeId` is `None` when the key is missing and `Some(None)` for a JSON `null`, which
   * `get_or_404` cannot load and answers with 404.
   */
  function AddFavorite(db: Db, userId: int, recipeId: Option<Option<int>>): (r: (Db, Reply))
    requires ValidDb(db)
    ensures ValidDb(r.0)
    ensures r.1.status == 404 <==>
      userId !in db.users.rows || (recipeId.Some? && (recipeId.value.None? || recipeId.value.value !in db.recipes.rows))
    ensures r.1.status == 400 <==> (userId in db.users.rows &&
      (recipeId.None? ||
       (recipeId.value.Some? && recipeId.value.value in db.recipes.rows && FavoriteOf(db.favorites, userId, recipeId.value.value).Some?)))
    ensures r.1.status != 201 ==> r.0 == db
    ensures r.1.status == 201 ==>
      recipeId.Some? && recipeId.value.Some? &&
      r.1.id.Some? && r.1.id.value !in db.favorites.rows &&
      r.0 == db.(favorites := Table(db.favorites.rows[r.1.id.value := FavoriteRow(userId, recipeId.value.value)], db.favorites.next + 1))
  {
    if userId !in db.users.rows then (db, Fail(404, "Not Found"))
    else if recipeId.None? then (db, Fail(400, "Missing required field: recipe_id"))
    else if recipeId.value.None? || recipeId.value.value !in db.recipes.rows then (db, Fail(404, "Not Found"))
    else if FavoriteOf(db.favorites, userId, recipeId.value.value).Some? then (db, Fail(400, "Recipe already in favorites"))
    else
      var (t, id) := Insert(db.favorites, FavoriteRow(userId, recipeId.value.value));
      (db.(favorites := t), Ok(201, id))
  }

  /** `DELETE /users/<u>/favorites/<r>`: the pair's row goes, nothing else does. */
  function RemoveFavorite(db: Db, userId: int, recipeId: int): (r: (Db, Reply))
    requires ValidDb(db)
    ensures ValidDb(r.0)
    ensures r.1.status == 404 <==> FavoriteOf(db.favorites, userId, recipeId).None?
    ensures r.1.status == 404 ==> r.0 == db
    ensures r.1.status != 404 ==>
      var id := FavoriteOf(db.favorites, userId, recipeId).value;
      r.1.status == 204 && r.0 == db.(favorites := Table(db.favorites.rows - {id}, db.favorites.next))
  {
    match FavoriteOf(db.favorites, userId, recipeId)
    case None => (db, Fail(404, "Not Found"))
    case Some(id) => (db.(favorites := Table(db.favorites.rows - {id}, db.favorites.next)), Reply(204, None, ""))
  }

  /** `GET /users/<u>/favorites/check/<r>`. */
  function IsFavorite(db: Db, userId: int, recipeId: int): (b: bool)
    requires ValidDb(db)
    ensures b <==> exists id :: id in db.favorites.rows && db.favorites.rows[id] == FavoriteRow(userId, recipeId)
  {
    FavoriteOf(db.favorites, userId, recipeId).Some?
  }

  /** Adding a favorite keeps the pairs unique. */
  lemma AddKeepsPairsUnique(db: Db, userId: int, recipeId: Option<Option<int>>)
    requires ValidDb(db) && UniquePairs(db.favorites)
    ensures UniquePairs(AddFavorite(db, userId, recipeId).0.favorites)
  {
    var (db', reply) := AddFavorite(db, userId, recipeId);
    if reply.status == 201 {
      var id := reply.id.value;
      forall a, b | a in db'.favorites.rows && b in db'.favorites.rows && db'.favorites.rows[a] == db'.favorites.rows[b]
        ensures a == b
      {
        if a != id && b != id {
          assert db.favorites.rows[a] == db.favorites.rows[b];
        }
      }
    }
  }

  /** Removing a favorite keeps the pairs unique. */
  lemma RemoveKeepsPairsUnique(db: Db, userId: int, recipeId: int)
    requires ValidDb(db) && UniquePairs(db.favorites)
    ensures UniquePairs(RemoveFavorite(db, userId, recipeId).0.favorites)
  {
  }

  /** Once added (or when already there), the check answers yes. */
  lemma AddThenCheck(db: Db, userId: int, recipeId: int)
    requires ValidDb(db) && userId in db.users.rows && recipeId in db.recipes.rows
    ensures IsFavorite(AddFavorite(db, userId, Some(Some(recipeId))).0, userId, recipeId)
  {
    var (db', reply) := AddFavorite(db, userId, Some(Some(recipeId)));
    if reply.status == 201 {
      assert db'.favorites.rows[reply.id.value] == FavoriteRow(userId, recipeId);
    } else {
      var id := FavoriteOf(db.favorites, userId, recipeId).value;
      assert db'.favorites.rows[id] == FavoriteRow(userId, recipeId);
    }
  }

  /** With the constraint in force, one removal leaves no favorite for the pair. */
  lemma RemoveThenCheck(db: Db, userId: int, recipeId: int)
    requires ValidDb(db) && UniquePairs(db.favorites)
    ensures !IsFavorite(RemoveFavorite(db, userId, recipeId).0, userId, recipeId)
  {
    var db' := RemoveFavorite(db, userId, recipeId).0;
    forall id | id in db'.favorites.rows ensures db'.favorites.rows[id] != FavoriteRow(userId, recipeId) {
      if FavoriteOf(db.favorites, userId, recipeId).Some? {
        var gone := FavoriteOf(db.favorites, userId, recipeId).value;
        assert db.favorites.rows[id] == db'.favorites.rows[id];
        assert id != gone;
      }
    }
  }

  /** The user's favorites, newest first: favorites are stamped when added, and ids grow with every insert. */
  function FavoriteListing(db: Db, userId: int): (ids: seq<int>)
    requires ValidDb(db)
    ensures forall id :: id in ids <==> id in db.favorites.rows && db.favorites.rows[id].userId == userId
    ensures forall i, j :: 0 <= i < j < |ids| ==> ids[i] > ids[j]
  {
    var ascending := Where(db.favorites, (f: FavoriteRow) => f.userId == userId);
    var r := Seqs.Reverse(ascending);
    assert forall id :: id in r <==> id in ascending by {
      forall id ensures id in r <==> id in ascending {
        if id in ascending {
          var k :| 0 <= k < |ascending| && ascending[k] == id;
          assert r[|ascending| - 1 - k] == id;
        }
      }
    }
    r
  }

  /** `GET /users/<id>/favorites`: 404 (`None`) for an unknown user or a page that does not exist. */
  function ListFavorites(db: Db, userId: int, page: Option<int>, perPage: Option<int>): (r: Option<Page>)
    requires ValidDb(db)
    ensures userId !in db.users.rows ==> r.None?
    ensures userId in db.users.rows ==> r == ListPage(FavoriteListing(db, userId), page, perPage, DefaultPerPage, MaxPerPage)
    ensures r.Some? ==> r.value.total == |FavoriteListing(db, userId)| && |r.value.items| <= MaxPerPage
    ensures r.Some? ==> forall k :: 0 <= k < |r.value.items| ==>
      r.value.items[k] in db.favorites.rows && db.favorites.rows[r.value.items[k]].userId == userId
  {
    if userId !in db.users.rows then None
    else
      var ids := FavoriteListing(db, userId);
      var r := ListPage(ids, page, perPage, DefaultPerPage, MaxPerPage);
      PageMembers(r, ids);
      r
  }

  /** A user's favorites all appear, page by page, when the page size is usable. */
  lemma EveryFavoriteListed(db: Db, userId: int, perPage: Option<int>, id: int)
    requires ValidDb(db) && userId in db.users.rows
    requires id in db.favorites.rows && db.favorites.rows[id].userId == userId
    requires perPage.GetOr(DefaultPerPage) >= 1
    ensures exists p :: (ListFavorites(db, userId, Some(p), perPage).Some? &&
                         id in ListFavorites(db, userId, Some(p), perPage).value.items)
  {
    var ids := FavoriteListing(db, userId);
    var i :| 0 <= i < |ids| && ids[i] == id;
    EveryRowListed(ids, perPage, DefaultPerPage, MaxPerPage, i);
  }
}
