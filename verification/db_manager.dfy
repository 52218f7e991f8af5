/**
 * The database maintenance tool: a command picked from a fixed list, the guarded first seeding,
 * the image-URL rewrite with its single marker, and the reset that asks for a typed confirmation
 * before wiping the store and seeding it afresh.
 */
module DbManager {
  import opened Wrappers
  import opened RecordStore
  import opened UserRoutes
  import opened InitDb
  import opened ImageRewrite

  // ---------------------------------------------------------------- commands

  /** The commands the tool accepts. */
  datatype Action = Init | Status | UpdateImages | Reset | Backup | Migrate

  /** The word that selects a command on the command line. */
  function ActionName(a: Action): string {
    match a
    case Init => "init"
    case Status => "status"
    case UpdateImages => "update-images"
    case Reset => "reset"
    case Backup => "backup"
    case Migrate => "migrate"
  }

  /** The argument parser: one of the listed words selects its command; anything else is refused. */
  function ParseAction(s: string): (r: Option<Action>)
    ensures r.Some? ==> ActionName(r.value) == s
    ensures r.None? <==> s !in ["init", "status", "update-images", "reset", "backup", "migrate"]
  {
    if s == "init" then Some(Init)
    else if s == "status" then Some(Status)
    else if s == "update-images" then Some(UpdateImages)
    else if s == "reset" then Some(Reset)
    else if s == "backup" then Some(Backup)
    else if s == "migrate" then Some(Migrate)
    else None
  }

  /** Every command is selected by its own word. */
  lemma ParseActionName(a: Action)
    ensures ParseAction(ActionName(a)) == Some(a)
  {
  }

  // ---------------------------------------------------------------- init

  /**
   * `init`: skipped when ingredients are stored, otherwise the seeding script runs (and a clash of
   * seed users is raised to the caller after the first two commits).
   */
  function ManagerInit(db: Db, seeds: Seeds, dateIn: int -> string): (r: Seeding)
    requires ValidDb(db)
    ensures r.Skipped? <==> db.ingredients.rows != map[]
    ensures r.Failed? <==> db.ingredients.rows == map[] && exists id :: id in db.users.rows && Taken(seeds, db.users.rows[id])
  {
    if db.ingredients.rows != map[] then Skipped else Seed(db, seeds, dateIn)
  }

  /** The tool's own check repeats the script's: the command does exactly what the script does. */
  lemma ManagerInitIsSeed(db: Db, seeds: Seeds, dateIn: int -> string)
    requires ValidDb(db)
    ensures ManagerInit(db, seeds, dateIn) == Seed(db, seeds, dateIn)
  {
  }

  // ---------------------------------------------------------------- update-images

  /** The tool rewrites an image URL when it mentions this host. */
  const ManagerMarks: seq<string> := ["example.com"]

  /** The host cannot straddle the frame of a local path. */
  lemma ManagerMarksFramed()
    ensures forall j :: 0 <= j < |ManagerMarks| ==> Framed(ManagerMarks[j])
  {
    assert "ex" == ManagerMarks[0][..2];
  }

  /**
   * `update-images`: recipes whose image URL mentions the host get their local path; once no
   * recipe name mentions it, a second run changes nothing and reports zero.
   */
  lemma ManagerUpdateSettles(t: Table<RecipeRow>)
    requires forall id :: id in t.rows ==> !MentionsAny(t.rows[id].name, ManagerMarks)
    ensures var t1 := RewriteImages(t, ManagerMarks).0;
            RewriteImages(t1, ManagerMarks) == (t1, 0)
  {
    ManagerMarksFramed();
    SecondRunRewritesNothing(t, ManagerMarks);
  }

  // ---------------------------------------------------------------- reset

  /** The store right after the tables are dropped and created again. */
  function EmptyDb(): (db: Db)
    ensures ValidDb(db)
    ensures db.ingredients.rows == map[] && db.recipes.rows == map[] && db.users.rows == map[]
    ensures db.pantry == map[] && db.favorites.rows == map[] && db.preferences.rows == map[]
  {
    Db(EmptyTable(), EmptyTable(), EmptyTable(), map[], EmptyTable(), EmptyTable(), EmptyTable(), EmptyTable())
  }

  /** The word the operator must type before the store is wiped. */
  const ResetWord: string := "RESET"

  /** What `reset` did. */
  datatype ResetOutcome = Cancelled | Reseeded(db: Db)

  /**
   * `reset`: any answer but the confirmation word cancels and leaves the store alone; the word
   * drops every table, creates them empty and runs the seeding script, which then cannot be
   * skipped nor clash with a stored user.
   */
  function ResetDatabase(db: Db, confirm: string, seeds: Seeds, dateIn: int -> string): (r: ResetOutcome)
    ensures r.Cancelled? <==> confirm != ResetWord
    ensures r.Reseeded? ==> Seed(EmptyDb(), seeds, dateIn) == Seeded(r.db)
  {
    if confirm != ResetWord then Cancelled
    else
      match Seed(EmptyDb(), seeds, dateIn)
      case Seeded(db') => Reseeded(db')
      case _ => assert false; Cancelled
  }

  /** The outcome of a confirmed reset does not depend on what was stored before. */
  lemma ResetForgetsStore(db1: Db, db2: Db, seeds: Seeds, dateIn: int -> string)
    ensures ResetDatabase(db1, ResetWord, seeds, dateIn) == ResetDatabase(db2, ResetWord, seeds, dateIn)
  {
  }

  /** A confirmed reset leaves exactly the seed ingredient names resolvable and the users unique. */
  lemma ResetLeavesSeedCatalog(db: Db, seeds: Seeds, dateIn: int -> string, name: string)
    requires WellFormed(seeds)
    ensures var r := ResetDatabase(db, ResetWord, seeds, dateIn);
            r.Reseeded? && UsersUnique(r.db.users) &&
            (FindByName(r.db.ingredients, name).Some? <==> Listed(name, seeds.ingredients))
  {
    SeededNamesResolve(EmptyDb(), seeds, dateIn, name);
    SeedingKeepsUsersUnique(EmptyDb(), seeds, dateIn);
  }
}
