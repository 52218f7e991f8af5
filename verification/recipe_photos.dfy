/**
 * The photo downloader: it deletes the generated SVG cards, fetches a photo for every recipe
 * from a fixed table of stock-photo URLs, stores it under the recipe's cleaned name with an
 * extension taken from the response's content type, and points the recipe at the stored file.
 * The network is a parameter: the content type answered for each requested URL, or nothing
 * when the request fails.
 */
module RecipePhotos {
  import opened Wrappers
  import opened Text
  import opened RecordStore
  import opened Seqs
  import opened FileNames
  import RecipeImages

  // ---------------------------------------------------------------- photo source

  /** The photo used for a recipe without an entry of its own. */
  const GenericPhoto: string := "https://images.unsplash.com/photo-1565299624946-b28f40a0ca4b?w=400&h=300&fit=crop"

  const FallbackImages: map<string, string> := map[
    "西红柿炒鸡蛋" := "https://images.unsplash.com/photo-1565299624946-b28f40a0ca4b?w=400&h=300&fit=crop",
    "土豆炖牛肉" := "https://images.unsplash.com/photo-1574484284002-952d92456975?w=400&h=300&fit=crop",
    "青椒炒肉" := "https://images.unsplash.com/photo-1512058564366-18510be2db19?w=400&h=300&fit=crop",
    "麻婆豆腐" := "https://images.unsplash.com/photo-1582878826629-29b7ad1cdc43?w=400&h=300&fit=crop",
    "蔬菜沙拉" := "https://images.unsplash.com/photo-1512621776951-a57141f2eefd?w=400&h=300&fit=crop",
    "红烧鱼" := "https://images.unsplash.com/photo-1544943910-4c1dc44aab44?w=400&h=300&fit=crop",
    "宫保鸡丁" := "https://images.unsplash.com/photo-1585032226651-759b368d7246?w=400&h=300&fit=crop",
    "清蒸鲈鱼" := "https://images.unsplash.com/photo-1519708227418-c8fd9a32b7a2?w=400&h=300&fit=crop",
    "糖醋排骨" := "https://images.unsplash.com/photo-1529692236671-f1f6cf9683ba?w=400&h=300&fit=crop",
    "红烧肉" := "https://images.unsplash.com/photo-1603133872878-684f208fb84b?w=400&h=300&fit=crop",
    "糖醋里脊" := "https://images.unsplash.com/photo-1565299507177-b0ac66763828?w=400&h=300&fit=crop",
    "鱼香茄子" := "https://images.unsplash.com/photo-1576045057995-568f588f82fb?w=400&h=300&fit=crop",
    "白切鸡" := "https://images.unsplash.com/photo-1598103442097-8b74394b95c6?w=400&h=300&fit=crop",
    "蒸蛋羹" := "https://images.unsplash.com/photo-1586190848861-99aa4a171e90?w=400&h=300&fit=crop",
    "西红柿鸡蛋面" := "https://images.unsplash.com/photo-1569718212165-3a8278d5f624?w=400&h=300&fit=crop",
    "可乐鸡翅" := "https://images.unsplash.com/photo-1527477396000-e27163b481c2?w=400&h=300&fit=crop",
    "蒜蓉西兰花" := "https://images.unsplash.com/photo-1459411621453-7b03977f4bfc?w=400&h=300&fit=crop"]

  /** The English search phrase kept for each recipe; the downloader never reads it. */
  const RecipeKeywords: map<string, string> := map[
    "西红柿炒鸡蛋" := "tomato scrambled eggs chinese",
    "土豆炖牛肉" := "beef potato stew chinese",
    "青椒炒肉" := "green pepper pork stir fry",
    "麻婆豆腐" := "mapo tofu sichuan",
    "蔬菜沙拉" := "vegetable salad fresh",
    "红烧鱼" := "braised fish chinese",
    "宫保鸡丁" := "kung pao chicken sichuan",
    "清蒸鲈鱼" := "steamed bass fish chinese",
    "糖醋排骨" := "sweet sour pork ribs",
    "红烧肉" := "braised pork belly chinese",
    "糖醋里脊" := "sweet sour pork tenderloin",
    "鱼香茄子" := "fish fragrant eggplant sichuan",
    "白切鸡" := "white cut chicken cantonese",
    "蒸蛋羹" := "steamed egg custard chinese",
    "西红柿鸡蛋面" := "tomato egg noodles chinese",
    "可乐鸡翅" := "cola chicken wings chinese",
    "蒜蓉西兰花" := "garlic broccoli chinese"]

  /** The search phrases and the photo table cover the same recipes. */
  lemma NameTablesAgree()
    ensures RecipeKeywords.Keys == FallbackImages.Keys
  {
  }

  /** `get_image_from_unsplash`: the recipe's own photo, or the generic one. */
  function PhotoSource(name: string): (r: string)
    ensures name in FallbackImages ==> r == FallbackImages[name]
    ensures name !in FallbackImages ==> r == GenericPhoto
  {
    if name in FallbackImages then FallbackImages[name] else GenericPhoto
  }

  /** The tomato-and-egg recipe's own entry is the generic photo: it looks like any recipe without one. */
  lemma TomatoEggLooksGeneric(name: string)
    requires name !in FallbackImages
    ensures PhotoSource("西红柿炒鸡蛋") == PhotoSource(name)
  {
  }

  // ---------------------------------------------------------------- content type

  /** The extensions a stored photo can get, in the order the downloader probes for them. */
  const PhotoExts: seq<string> := [".jpg", ".png", ".webp"]

  /**
   * The extension for a response's content type: none unless it names an image; `.jpg` for
   * JPEG, then `.png`, then `.webp`, and `.jpg` for any other image type.
   */
  function ContentExt(contentType: string): (r: Option<string>)
    ensures r.Some? <==> StartsWith(contentType, "image/")
    ensures r.Some? ==> r.value in PhotoExts
  {
    if !StartsWith(contentType, "image/") then None
    else if Contains(contentType, "jpeg") || Contains(contentType, "jpg") then Some(".jpg")
    else if Contains(contentType, "png") then Some(".png")
    else if Contains(contentType, "webp") then Some(".webp")
    else Some(".jpg")
  }

  /** JPEG wins over every other name in the type; `.png` and `.webp` each need their name in it. */
  lemma ContentExtPriority(contentType: string)
    requires StartsWith(contentType, "image/")
    ensures Contains(contentType, "jpeg") || Contains(contentType, "jpg") ==> ContentExt(contentType) == Some(".jpg")
    ensures ContentExt(contentType) == Some(".png") <==>
      Contains(contentType, "png") && !Contains(contentType, "jpeg") && !Contains(contentType, "jpg")
    ensures ContentExt(contentType) == Some(".webp") <==>
      Contains(contentType, "webp") && !Contains(contentType, "png") && !Contains(contentType, "jpeg") && !Contains(contentType, "jpg")
  {
  }

  /** A response without a content type is not taken for an image. */
  lemma MissingContentTypeRefused()
    ensures ContentExt("") == None
  {
  }

  /** Any other image type is stored as `.jpg`: an SVG answer ends up in a `.jpg` file. */
  lemma SvgAnswerStoredAsJpg()
    ensures ContentExt("image/svg+xml") == Some(".jpg")
  {
    var ct := "image/svg+xml";
    assert ct[..6] == "image/";
    AbsentFirstChar(ct, "jpeg");
    AbsentFirstChar(ct, "jpg");
    AbsentFirstChar(ct, "png");
    AbsentFirstChar(ct, "webp");
  }

  // ---------------------------------------------------------------- one recipe

  /** The file a photo is stored in. */
  function PhotoFile(name: string, ext: string): string {
    Sanitize(name) + ext
  }

  /** The first probed extension whose file exists. */
  function FirstOnDisk(filename: string, exts: seq<string>, disk: set<string>): (r: Option<string>)
    ensures r.Some? ==> r.value in exts && filename + r.value in disk
    ensures r.None? <==> forall i :: 0 <= i < |exts| ==> filename + exts[i] !in disk
  {
    if exts == [] then None
    else if filename + exts[0] in disk then Some(exts[0])
    else FirstOnDisk(filename, exts[1..], disk)
  }

  /** The probe finds the first existing file: no earlier extension has one. */
  lemma {:induction false} FirstOnDiskIsFirst(filename: string, exts: seq<string>, disk: set<string>, k: int)
    requires 0 <= k < |exts| && filename + exts[k] in disk
    ensures FirstOnDisk(filename, exts, disk).Some?
    ensures exists j :: 0 <= j <= k && FirstOnDisk(filename, exts, disk) == Some(exts[j]) &&
                        forall i :: 0 <= i < j ==> filename + exts[i] !in disk
    decreases |exts|
  {
    if filename + exts[0] !in disk {
      FirstOnDiskIsFirst(filename, exts[1..], disk, k - 1);
      var j :| 0 <= j <= k - 1 && FirstOnDisk(filename, exts[1..], disk) == Some(exts[1..][j]) &&
               forall i :: 0 <= i < j ==> filename + exts[1..][i] !in disk;
      assert FirstOnDisk(filename, exts, disk) == Some(exts[j + 1]);
      forall i | 0 <= i < j + 1 ensures filename + exts[i] !in disk {
        if i > 0 {
          assert exts[i] == exts[1..][i - 1];
        }
      }
    } else {
      assert FirstOnDisk(filename, exts, disk) == Some(exts[0]);
    }
  }

  /** What fetching one recipe's photo did: the URL the recipe gets, if any, and the files afterwards. */
  datatype Download = Download(url: Option<string>, disk: set<string>)

  /**
   * The URL names the file of extension `PhotoExts[j]`, which is on disk, and no earlier
   * extension's file is.
   */
  predicate ProbedFirst(name: string, j: int, r: Download)
    requires 0 <= j < |PhotoExts|
  {
    r.url == Some("/images/" + PhotoFile(name, PhotoExts[j])) && PhotoFile(name, PhotoExts[j]) in r.disk &&
    forall i :: 0 <= i < j ==> PhotoFile(name, PhotoExts[i]) !in r.disk
  }

  /**
   * `download_recipe_photo` as written: a failed request or a non-image answer gives nothing;
   * otherwise the photo is stored and the URL names the first of `.jpg`, `.png`, `.webp` under
   * the recipe's file name that exists, which may be an older file than the one just stored.
   */
  function DownloadRecipePhotoAsWritten(name: string, contentType: Option<string>, disk: set<string>): (r: Download)
    ensures r.url.None? <==> contentType.None? || ContentExt(contentType.value).None?
    ensures r.url.None? ==> r.disk == disk
    ensures r.url.Some? ==> r.disk == disk + {PhotoFile(name, ContentExt(contentType.value).value)}
    ensures r.url.Some? ==> exists j :: 0 <= j < |PhotoExts| && ProbedFirst(name, j, r)
  {
    if contentType.None? || ContentExt(contentType.value).None? then Download(None, disk)
    else
      var ext := ContentExt(contentType.value).value;
      var filename := Sanitize(name);
      var disk' := disk + {filename + ext};
      assert ext == PhotoExts[0] || ext == PhotoExts[1] || ext == PhotoExts[2];
      var k :| 0 <= k < |PhotoExts| && PhotoExts[k] == ext;
      FirstOnDiskIsFirst(filename, PhotoExts, disk', k);
      var j :| 0 <= j <= k && FirstOnDisk(filename, PhotoExts, disk') == Some(PhotoExts[j]) &&
               forall i :: 0 <= i < j ==> filename + PhotoExts[i] !in disk';
      var e := FirstOnDisk(filename, PhotoExts, disk').value;
      var r := Download(Some("/images/" + filename + e), disk');
      assert "/images/" + filename + e == "/images/" + PhotoFile(name, PhotoExts[j]);
      assert ProbedFirst(name, j, r);
      r
  }

  /** With an older `.jpg` on disk, a fresh `.png` download leaves the recipe pointing at the old file. */
  lemma StalePhotoChosen()
    ensures DownloadRecipePhotoAsWritten("x", Some("image/png"), {"x.jpg"}).url == Some("/images/x.jpg")
  {
    CleanNameUnchanged("x");
    var ct := "image/png";
    assert ct[..6] == "image/";
    assert OccursAt(ct, "png", 6);
    AbsentFirstChar(ct, "jpeg");
    AbsentFirstChar(ct, "jpg");
    assert ContentExt(ct) == Some(".png");
    assert Sanitize("x") + ".png" == "x.png";
    assert "x" + PhotoExts[0] == "x.jpg";
    assert FirstOnDisk("x", PhotoExts, {"x.jpg", "x.png"}) == Some(".jpg");
    assert "/images/" + "x" + ".jpg" == "/images/x.jpg";
  }

  /** The file a download stores, if the answer is an image. */
  function SavedFile(name: string, contentType: Option<string>): (r: Option<string>)
    ensures r.Some? <==> contentType.Some? && ContentExt(contentType.value).Some?
    ensures r.Some? ==> exists e :: e in PhotoExts && r.value == PhotoFile(name, e)
  {
    if contentType.None? then None
    else match ContentExt(contentType.value)
      case None => None
      case Some(ext) => Some(PhotoFile(name, ext))
  }

  /** The URL of the file a download stores. */
  function PhotoUrl(name: string, contentType: Option<string>): (r: Option<string>)
    ensures r.Some? <==> SavedFile(name, contentType).Some?
    ensures r.Some? ==> StartsWith(r.value, "/images/") && r.value[|"/images/"|..] == SavedFile(name, contentType).value
  {
    match SavedFile(name, contentType)
    case None => None
    case Some(f) =>
      var u := "/images/" + f;
      assert u[..|"/images/"|] == "/images/" && u[|"/images/"|..] == f;
      Some(u)
  }

  /** `download_recipe_photo` as its comment describes it: the URL names the file just stored. */
  function DownloadRecipePhoto(name: string, contentType: Option<string>, disk: set<string>): (r: Download)
    ensures r.url.None? <==> contentType.None? || ContentExt(contentType.value).None?
    ensures r.url.None? ==> r.disk == disk
    ensures r.url.Some? ==> StartsWith(r.url.value, "/images/") && r.disk == disk + {r.url.value[|"/images/"|..]}
  {
    match PhotoUrl(name, contentType)
    case None => Download(None, disk)
    case Some(u) => Download(Some(u), disk + {SavedFile(name, contentType).value})
  }

  /** The two versions agree whenever no older photo of the recipe sits under an earlier extension. */
  lemma AsWrittenAgreesWithoutOlderFiles(name: string, contentType: Option<string>, disk: set<string>)
    requires forall i :: 0 <= i < |PhotoExts| ==> PhotoFile(name, PhotoExts[i]) !in disk
    ensures DownloadRecipePhotoAsWritten(name, contentType, disk) == DownloadRecipePhoto(name, contentType, disk)
  {
    if contentType.Some? && ContentExt(contentType.value).Some? {
      var ext := ContentExt(contentType.value).value;
      var filename := Sanitize(name);
      var disk' := disk + {filename + ext};
      assert ext == PhotoExts[0] || ext == PhotoExts[1] || ext == PhotoExts[2];
      var k :| 0 <= k < |PhotoExts| && PhotoExts[k] == ext;
      FirstOnDiskIsFirst(filename, PhotoExts, disk', k);
      var j :| 0 <= j <= k && FirstOnDisk(filename, PhotoExts, disk') == Some(PhotoExts[j]) &&
               forall i :: 0 <= i < j ==> filename + PhotoExts[i] !in disk';
      assert filename + PhotoExts[j] !in disk;
      assert filename + PhotoExts[j] == filename + ext;
      assert (filename + PhotoExts[j])[|filename|..] == PhotoExts[j];
      assert (filename + ext)[|filename|..] == ext;
    }
  }

  // ---------------------------------------------------------------- the run

  /**
   * The network as the run sees it: for a recipe name, the content type answered to the request
   * for that recipe's photo, or nothing when the request fails.
   */
  function Answers(fetch: string -> Option<string>): (answer: string -> Option<string>)
    ensures forall name :: answer(name) == fetch(PhotoSource(name))
  {
    (name: string) => fetch(PhotoSource(name))
  }

  /** The recipes whose photo arrives as an image. */
  function Fetched(t: Table<RecipeRow>, answer: string -> Option<string>): (r: set<int>)
    ensures forall id :: id in r <==> id in t.rows && SavedFile(t.rows[id].name, answer(t.rows[id].name)).Some?
  {
    set id | id in t.rows && SavedFile(t.rows[id].name, answer(t.rows[id].name)).Some?
  }

  /** The files the downloads of a run store. */
  function Stored(t: Table<RecipeRow>, answer: string -> Option<string>): (r: set<string>)
    ensures forall f :: f in r <==> exists id :: id in t.rows && SavedFile(t.rows[id].name, answer(t.rows[id].name)) == Some(f)
  {
    set id | id in t.rows && SavedFile(t.rows[id].name, answer(t.rows[id].name)).Some? ::
      SavedFile(t.rows[id].name, answer(t.rows[id].name)).value
  }

  /** One recipe after its download. */
  function WithPhoto(row: RecipeRow, answer: string -> Option<string>): RecipeRow {
    match PhotoUrl(row.name, answer(row.name))
    case Some(u) => row.(imageUrl := Some(u))
    case None => row
  }

  /** What a run leaves: the recipes, the numbers of updated and failed recipes, and the files. */
  datatype PhotoRun = PhotoRun(recipes: Table<RecipeRow>, updated: nat, failed: nat, disk: set<string>)

  /**
   * `update_recipe_photos`: each recipe whose photo arrives points at its stored file and counts
   * as updated; each other recipe is left alone and counts as failed.
   */
  function UpdateRecipePhotos(t: Table<RecipeRow>, answer: string -> Option<string>, disk: set<string>): (r: PhotoRun)
    ensures r.recipes.next == t.next && r.recipes.rows.Keys == t.rows.Keys
    ensures forall id :: id in Fetched(t, answer) ==>
      r.recipes.rows[id] == t.rows[id].(imageUrl := PhotoUrl(t.rows[id].name, answer(t.rows[id].name)))
    ensures forall id :: id in t.rows && id !in Fetched(t, answer) ==> r.recipes.rows[id] == t.rows[id]
    ensures r.updated == |Fetched(t, answer)| && r.updated + r.failed == |t.rows|
    ensures r.disk == disk + Stored(t, answer)
  {
    var fetched := Fetched(t, answer);
    assert fetched <= t.rows.Keys;
    PhotoRun(Table(map id | id in t.rows :: WithPhoto(t.rows[id], answer), t.next),
             |fetched|, |t.rows.Keys - fetched|, disk + Stored(t, answer))
  }

  /** Every recipe the run points somewhere names a file the run leaves on disk. */
  lemma UpdatedPhotosExist(t: Table<RecipeRow>, answer: string -> Option<string>, disk: set<string>, id: int)
    requires id in Fetched(t, answer)
    ensures var r := UpdateRecipePhotos(t, answer, disk);
            var u := r.recipes.rows[id].imageUrl;
            u.Some? && StartsWith(u.value, "/images/") && u.value[|"/images/"|..] in r.disk
  {
  }

  /** Two tables with the same keys and names fetch the same recipes. */
  lemma FetchedByName(t: Table<RecipeRow>, t2: Table<RecipeRow>, answer: string -> Option<string>)
    requires t2.rows.Keys == t.rows.Keys
    requires forall id :: id in t.rows ==> t2.rows[id].name == t.rows[id].name
    ensures Fetched(t2, answer) == Fetched(t, answer)
  {
    forall id | id in t.rows ensures id in Fetched(t2, answer) <==> id in Fetched(t, answer) {
      assert t2.rows[id].name == t.rows[id].name;
    }
  }

  /** Fetching a recipe's photo again writes the same URL. */
  lemma WithPhotoTwice(row: RecipeRow, answer: string -> Option<string>)
    ensures WithPhoto(WithPhoto(row, answer), answer) == WithPhoto(row, answer)
  {
    assert WithPhoto(row, answer).name == row.name;
  }

  /** Fetching every recipe's photo again, with the same answers, writes the same URLs. */
  lemma PhotoRowsSettle(t: Table<RecipeRow>, answer: string -> Option<string>, t1: Table<RecipeRow>, t2: Table<RecipeRow>)
    requires t1.rows == map id | id in t.rows :: WithPhoto(t.rows[id], answer)
    requires t2.rows == map id | id in t1.rows :: WithPhoto(t1.rows[id], answer)
    ensures t2.rows == t1.rows
  {
    forall id | id in t.rows ensures t2.rows[id] == t1.rows[id] {
      WithPhotoTwice(t.rows[id], answer);
    }
  }

  /** A second run with the same answers writes each recipe's URL again, whatever the files. */
  lemma SecondRunKeepsRecipes(t: Table<RecipeRow>, answer: string -> Option<string>, disk: set<string>, disk2: set<string>)
    ensures var r := UpdateRecipePhotos(t, answer, disk);
            UpdateRecipePhotos(r.recipes, answer, disk2).recipes == r.recipes
  {
    var t1 := UpdateRecipePhotos(t, answer, disk).recipes;
    var t2 := UpdateRecipePhotos(t1, answer, disk2).recipes;
    PhotoRowsSettle(t, answer, t1, t2);
  }

  /** With the same answers, a second run leaves the recipes as the first did and counts the same. */
  lemma UpdateRecipePhotosTwice(t: Table<RecipeRow>, answer: string -> Option<string>, disk: set<string>)
    ensures var r := UpdateRecipePhotos(t, answer, disk);
            var r2 := UpdateRecipePhotos(r.recipes, answer, r.disk);
            r2.recipes == r.recipes && r2.updated == r.updated && r2.failed == r.failed
  {
    var r := UpdateRecipePhotos(t, answer, disk);
    FetchedByName(t, r.recipes, answer);
    SecondRunKeepsRecipes(t, answer, disk, r.disk);
  }

  /**
   * With the as-written probe a second run can move a recipe: "a_b" (a PNG answer) and then
   * "a b" (a JPEG answer) both store under `a_b`, so the first run points "a_b" at `a_b.png`
   * and the next run, finding `a_b.jpg` first, points it at `a_b.jpg`.
   */
  lemma AsWrittenSecondRunRepoints()
    ensures var first := DownloadRecipePhotoAsWritten("a_b", Some("image/png"), {});
            var other := DownloadRecipePhotoAsWritten("a b", Some("image/jpeg"), first.disk);
            var again := DownloadRecipePhotoAsWritten("a_b", Some("image/png"), other.disk);
            first.url == Some("/images/a_b.png") && again.url == Some("/images/a_b.jpg")
  {
    SpaceAndUnderscoreCollide();
    PngAnswer();
    JpegAnswer();
    FirstDownload("a_b", "image/png");
    OtherDownload("a b", "image/jpeg", {"a_b.png"});
    AgainDownload("a_b", "image/png", {"a_b.png"} + {"a_b.jpg"});
  }

  /** A PNG answer is stored as `.png`. */
  lemma PngAnswer()
    ensures ContentExt("image/png") == Some(".png")
  {
    var png := "image/png";
    assert png[..6] == "image/";
    assert OccursAt(png, "png", 6);
    AbsentFirstChar(png, "jpeg");
    AbsentFirstChar(png, "jpg");
  }

  /** A JPEG answer is stored as `.jpg`. */
  lemma JpegAnswer()
    ensures ContentExt("image/jpeg") == Some(".jpg")
  {
    var jpeg := "image/jpeg";
    assert jpeg[..6] == "image/";
    assert OccursAt(jpeg, "jpeg", 6);
  }

  /** A name stored as `a_b` with a PNG answer and nothing on disk gets its own file. */
  lemma FirstDownload(name: string, contentType: string)
    requires Sanitize(name) == "a_b" && ContentExt(contentType) == Some(".png")
    ensures DownloadRecipePhotoAsWritten(name, Some(contentType), {}) == Download(Some("/images/a_b.png"), {"a_b.png"})
  {
    AsWrittenDownloadIs(name, contentType, {}, ".png");
    assert "a_b" + ".png" == "a_b.png";
    assert {} + {"a_b.png"} == {"a_b.png"};
    OnlyPngProbed();
    assert "/images/" + "a_b" + ".png" == "/images/a_b.png";
  }

  /** The as-written download with a known extension, in closed form. */
  lemma AsWrittenDownloadIs(name: string, contentType: string, disk: set<string>, ext: string)
    requires ContentExt(contentType) == Some(ext)
    ensures var filename := Sanitize(name);
            var disk' := disk + {filename + ext};
            DownloadRecipePhotoAsWritten(name, Some(contentType), disk) ==
              Download(Some("/images/" + filename + FirstOnDisk(filename, PhotoExts, disk').value), disk')
  {
  }

  /** With only `a_b.png` on disk the probe passes over `.jpg` and stops at `.png`. */
  lemma OnlyPngProbed()
    ensures FirstOnDisk("a_b", PhotoExts, {"a_b.png"}) == Some(".png")
  {
    var disk := {"a_b.png"};
    var jpg := "a_b" + PhotoExts[0];
    assert jpg == "a_b.jpg";
    assert jpg[4] != "a_b.png"[4];
    assert jpg !in disk;
    var tail := PhotoExts[1..];
    assert tail[0] == ".png";
    assert "a_b" + tail[0] == "a_b.png";
    assert tail != [] && "a_b" + tail[0] in disk;
    assert FirstOnDisk("a_b", tail, disk) == Some(tail[0]);
    assert FirstOnDisk("a_b", PhotoExts, disk) == FirstOnDisk("a_b", tail, disk);
  }

  /** A name stored as `a_b` with a JPEG answer adds `a_b.jpg` to the disk. */
  lemma OtherDownload(name: string, contentType: string, disk: set<string>)
    requires Sanitize(name) == "a_b" && ContentExt(contentType) == Some(".jpg")
    ensures DownloadRecipePhotoAsWritten(name, Some(contentType), disk).disk == disk + {"a_b.jpg"}
  {
    AsWrittenDownloadIs(name, contentType, disk, ".jpg");
    assert "a_b" + ".jpg" == "a_b.jpg";
  }

  /** A name stored as `a_b`, with `a_b.jpg` already on disk, is pointed at the `.jpg` whatever the answer. */
  lemma AgainDownload(name: string, contentType: string, disk: set<string>)
    requires Sanitize(name) == "a_b" && ContentExt(contentType).Some? && "a_b.jpg" in disk
    ensures DownloadRecipePhotoAsWritten(name, Some(contentType), disk).url == Some("/images/a_b.jpg")
  {
    var ext := ContentExt(contentType).value;
    AsWrittenDownloadIs(name, contentType, disk, ext);
    JpgProbedFirst(disk + {"a_b" + ext});
    assert "/images/" + "a_b" + ".jpg" == "/images/a_b.jpg";
  }

  /** With `a_b.jpg` on disk the probe stops at its first extension. */
  lemma JpgProbedFirst(disk: set<string>)
    requires "a_b.jpg" in disk
    ensures FirstOnDisk("a_b", PhotoExts, disk) == Some(".jpg")
  {
    assert "a_b" + PhotoExts[0] == "a_b.jpg";
  }

  // ---------------------------------------------------------------- files

  /** `cleanup_old_svg_files`: every `.svg` file goes. */
  function CleanupSvg(disk: set<string>): (r: set<string>)
    ensures forall f :: f in r <==> f in disk && !EndsWith(f, ".svg")
  {
    set f | f in disk && !EndsWith(f, ".svg")
  }

  /** A stored photo is never taken for a card. */
  lemma PhotoIsNoCard(name: string, ext: string)
    requires ext in PhotoExts
    ensures !RecipeImages.IsCard(PhotoFile(name, ext))
  {
    NoCardSuffix(Sanitize(name), ext);
  }

  /** A name ending in a photo extension does not end in ".svg": the third-last letters differ. */
  lemma NoCardSuffix(s: string, ext: string)
    requires ext in PhotoExts
    ensures !EndsWith(s + ext, ".svg")
  {
    var f := s + ext;
    assert f[|f| - 3] == ext[|ext| - 3];
    assert ext[|ext| - 3] != 's';
  }

  /** No file a run stores is a card. */
  lemma StoredPhotosAreNoCards(t: Table<RecipeRow>, answer: string -> Option<string>)
    ensures forall f :: f in Stored(t, answer) ==> !RecipeImages.IsCard(f)
  {
    forall f | f in Stored(t, answer) ensures !RecipeImages.IsCard(f) {
      var id :| id in t.rows && SavedFile(t.rows[id].name, answer(t.rows[id].name)) == Some(f);
      var e :| e in PhotoExts && f == PhotoFile(t.rows[id].name, e);
      PhotoIsNoCard(t.rows[id].name, e);
    }
  }

  /**
   * The downloader's main flow: the old cards are deleted, then every recipe's photo is fetched
   * from its source. Nothing the run leaves on disk is a card.
   */
  function RunDownloader(t: Table<RecipeRow>, fetch: string -> Option<string>, disk: set<string>): (r: PhotoRun)
    ensures r.recipes.rows.Keys == t.rows.Keys
    ensures forall f :: f in r.disk ==> !RecipeImages.IsCard(f)
    ensures forall f :: f in disk && !RecipeImages.IsCard(f) ==> f in r.disk
  {
    var r := UpdateRecipePhotos(t, Answers(fetch), CleanupSvg(disk));
    StoredPhotosAreNoCards(t, Answers(fetch));
    r
  }

  /** After the downloader's run, the card listing finds no card. */
  lemma NoCardsAfterDownload(t: Table<RecipeRow>, fetch: string -> Option<string>, disk: set<string>, files: seq<string>)
    requires forall i :: 0 <= i < |files| ==> files[i] in RunDownloader(t, fetch, disk).disk
    ensures RecipeImages.SvgListing(files) == []
  {
    FilterDropsAll(files, RecipeImages.IsCard);
  }

  /** The photo extensions the listing accepts, compared after lower-casing. */
  const ListedExts: seq<string> := [".jpg", ".jpeg", ".png", ".webp"]

  /** `f.lower().endswith(('.jpg', '.jpeg', '.png', '.webp'))`. */
  predicate IsPhotoFile(f: string) {
    exists i :: 0 <= i < |ListedExts| && EndsWith(Lower(f), ListedExts[i])
  }

  /** `list_downloaded_photos`: the directory's photo files. */
  function PhotoListing(files: seq<string>): (r: seq<string>)
    ensures forall f :: f in r <==> f in files && IsPhotoFile(f)
  {
    Filter(files, IsPhotoFile)
  }

  /** Lower-casing leaves a suffix without upper-case letters in place. */
  lemma LowerKeepsSuffix(f: string, ext: string)
    requires EndsWith(f, ext)
    requires forall j :: 0 <= j < |ext| ==> !('A' <= ext[j] <= 'Z')
    ensures EndsWith(Lower(f), ext)
  {
    var lf := Lower(f);
    forall j | 0 <= j < |ext| ensures lf[|f| - |ext| + j] == ext[j] {
      assert f[|f| - |ext| + j] == f[|f| - |ext|..][j];
    }
    assert lf[|lf| - |ext|..] == ext;
  }

  /** Every stored photo is listed. */
  lemma StoredPhotoListed(name: string, ext: string, files: seq<string>)
    requires ext in PhotoExts && PhotoFile(name, ext) in files
    ensures PhotoFile(name, ext) in PhotoListing(files)
  {
    PhotoExtListed(Sanitize(name), ext);
  }

  /** A name ending in a photo extension is a photo file. */
  lemma PhotoExtListed(s: string, ext: string)
    requires ext in PhotoExts
    ensures IsPhotoFile(s + ext)
  {
    var f := s + ext;
    assert f[|f| - |ext|..] == ext;
    LowerKeepsSuffix(f, ext);
    assert ext == ListedExts[0] || ext == ListedExts[2] || ext == ListedExts[3];
  }
}
