/**
 * The deployment-side database script: it repairs the scheme of the database URL read from a
 * local environment file, seeds the store once, reporting a status instead of raising, and
 * rewrites image URLs that point at the sample host or at a placeholder.
 */
module VercelDb {
  import opened Wrappers
  import opened Text
  import opened RecordStore
  import opened InitDb
  import opened ImageRewrite
  import DbManager

  // ---------------------------------------------------------------- database URL

  /** The scheme some hosting providers hand out, and the one the database driver accepts. */
  const OldScheme: string := "postgres://"
  const NewScheme: string := "postgresql://"

  /** `url.replace('postgres://', 'postgresql://', 1)` on a URL known to start with the old scheme. */
  function FixScheme(url: string): (r: string)
    ensures StartsWith(url, OldScheme) ==> StartsWith(r, NewScheme) && r[|NewScheme|..] == url[|OldScheme|..]
    ensures !StartsWith(url, OldScheme) ==> r == url
    ensures !StartsWith(r, OldScheme) || r == url
  {
    if StartsWith(url, OldScheme) then
      assert ("postgresql://" + url[11..])[8] == 'q';
      NewScheme + url[|OldScheme|..]
    else url
  }

  /** A repaired URL no longer carries the old scheme. */
  lemma FixedSchemeIsNew(url: string)
    requires StartsWith(url, OldScheme)
    ensures !StartsWith(FixScheme(url), OldScheme)
  {
    assert FixScheme(url)[8] == 'q';
    assert OldScheme[8] == ':';
  }

  /** Repairing twice is repairing once. */
  lemma FixSchemeIdempotent(url: string)
    ensures FixScheme(FixScheme(url)) == FixScheme(url)
  {
    if StartsWith(url, OldScheme) {
      FixedSchemeIsNew(url);
    }
  }

  /**
   * The value of `DATABASE_URL` after the loader: the scheme is repaired only when a local
   * environment file exists; an unset variable stays unset (its default, the empty string, does
   * not start with the old scheme).
   */
  function LoadEnv(envFileExists: bool, url: Option<string>): (r: Option<string>)
    ensures r.None? <==> url.None?
    ensures !envFileExists ==> r == url
    ensures envFileExists && url.Some? ==> !StartsWith(r.value, OldScheme)
    ensures r.Some? && !StartsWith(url.value, OldScheme) ==> r == url
  {
    if envFileExists && url.Some? then
      Some(FixScheme(url.value))
    else url
  }

  // ---------------------------------------------------------------- init

  /** The `status` field of the script's reply. */
  datatype InitStatus = StatusSkipped | StatusSuccess | StatusError

  /**
   * `init_database`: skipped when ingredients are stored; otherwise the seeding script runs and
   * any exception becomes an error status, with the commits made before it still in the store.
   */
  function InitDatabase(db: Db, seeds: Seeds, dateIn: int -> string): (r: (InitStatus, Db))
    requires ValidDb(db)
    ensures ValidDb(r.1)
    ensures r.0 == StatusSkipped <==> db.ingredients.rows != map[]
    ensures r.0 == StatusSkipped ==> r.1 == db
    ensures r.0 == StatusError <==> db.ingredients.rows == map[] && exists id :: id in db.users.rows && Taken(seeds, db.users.rows[id])
    ensures r.0 == StatusError ==> r.1 == SeedCatalog(db, seeds)
    ensures r.0 == StatusSuccess ==> r.1 == SeedAccounts(SeedCatalog(db, seeds), seeds, dateIn)
  {
    if db.ingredients.rows != map[] then (StatusSkipped, db)
    else
      match Seed(db, seeds, dateIn)
      case Seeded(db') => (StatusSuccess, db')
      case Failed(db') => (StatusError, db')
      case Skipped => assert false; (StatusSkipped, db)
  }

  /** After a success or an error, running the script again is skipped. */
  lemma InitAgainSkips(db: Db, seeds: Seeds, dateIn: int -> string, later: int -> string)
    requires ValidDb(db) && |seeds.ingredients| > 0
    ensures var r := InitDatabase(db, seeds, dateIn);
            InitDatabase(r.1, seeds, later).0 == StatusSkipped
  {
    SeedingTwiceSkips(db, seeds, dateIn, later);
  }

  /** The status agrees with what the maintenance tool's command leaves behind. */
  lemma InitMatchesManager(db: Db, seeds: Seeds, dateIn: int -> string)
    requires ValidDb(db)
    ensures var r := InitDatabase(db, seeds, dateIn);
            match DbManager.ManagerInit(db, seeds, dateIn)
            case Skipped => r == (StatusSkipped, db)
            case Seeded(db') => r == (StatusSuccess, db')
            case Failed(db') => r == (StatusError, db')
  {
  }

  // ---------------------------------------------------------------- update-images

  /** The script rewrites an image URL that mentions the sample host or a placeholder. */
  const VercelMarks: seq<string> := ["example.com", "placeholder"]

  /** Neither marker can straddle the frame of a local path. */
  lemma VercelMarksFramed()
    ensures forall j :: 0 <= j < |VercelMarks| ==> Framed(VercelMarks[j])
  {
    assert "ex" == VercelMarks[0][..2];
    assert "pl" == VercelMarks[1][..2];
  }

  /** Once no recipe name mentions a marker, a second run changes nothing and reports zero. */
  lemma VercelUpdateSettles(t: Table<RecipeRow>)
    requires forall id :: id in t.rows ==> !MentionsAny(t.rows[id].name, VercelMarks)
    ensures var t1 := RewriteImages(t, VercelMarks).0;
            RewriteImages(t1, VercelMarks) == (t1, 0)
  {
    VercelMarksFramed();
    SecondRunRewritesNothing(t, VercelMarks);
  }

  /**
   * The script rewrites every URL the maintenance tool rewrites, and exactly those plus the ones
   * that mention a placeholder.
   */
  lemma VercelRuleWidensManager(t: Table<RecipeRow>)
    ensures StaleIds(t, DbManager.ManagerMarks) <= StaleIds(t, VercelMarks)
    ensures forall id :: id in StaleIds(t, VercelMarks) <==>
      id in StaleIds(t, DbManager.ManagerMarks) || id in StaleIds(t, ["placeholder"])
  {
    forall id | id in t.rows
      ensures Stale(t.rows[id].imageUrl, VercelMarks) <==>
        Stale(t.rows[id].imageUrl, DbManager.ManagerMarks) || Stale(t.rows[id].imageUrl, ["placeholder"])
    {
      var u := t.rows[id].imageUrl;
      if Stale(u, VercelMarks) {
        var j :| 0 <= j < |VercelMarks| && Contains(u.value, VercelMarks[j]);
        if j == 0 {
          assert Contains(u.value, DbManager.ManagerMarks[0]);
        } else {
          assert Contains(u.value, ["placeholder"][0]);
        }
      }
      if Stale(u, DbManager.ManagerMarks) {
        assert Contains(u.value, VercelMarks[0]);
      }
      if Stale(u, ["placeholder"]) {
        assert Contains(u.value, VercelMarks[1]);
      }
    }
  }

  // ---------------------------------------------------------------- commands

  /** The commands the script accepts. */
  datatype Command = InitCommand | CheckCommand | UpdateImagesCommand

  function CommandName(c: Command): string {
    match c
    case InitCommand => "init"
    case CheckCommand => "check"
    case UpdateImagesCommand => "update-images"
  }

  /** The argument parser: one of the three words selects its command; anything else is refused. */
  function ParseCommand(s: string): (r: Option<Command>)
    ensures r.Some? ==> CommandName(r.value) == s
    ensures r.None? <==> s !in ["init", "check", "update-images"]
  {
    if s == "init" then Some(InitCommand)
    else if s == "check" then Some(CheckCommand)
    else if s == "update-images" then Some(UpdateImagesCommand)
    else None
  }

  /** Every command is selected by its own word. */
  lemma ParseCommandName(c: Command)
    ensures ParseCommand(CommandName(c)) == Some(c)
  {
  }
}
