/**
 * `UnsplashDBManager`: creating and seeding the schema, the health check
 * and the repair (delete the file, then initialise again). A store error
 * (`sqlite3.Error`) is a boolean parameter of the operation it disturbs.
 */
module DbManager {
  import opened Wrappers
  import Config
  import opened Store
  import Photos

  /** Column names of each table, as the `CREATE TABLE` statements list them. */
  const ImagesColumns: seq<string> := [
    "id", "filename", "description", "alt_description", "user_name", "user_username", "user_id",
    "image_url_raw", "image_url_full", "image_url_regular", "image_url_small", "image_url_thumb",
    "download_time", "width", "height", "color", "likes", "tags", "category", "category_slug",
    "created_at", "updated_at", "exif_data", "location_data", "download_status", "error_message",
    "file_size", "file_hash", "api_request_id", "unsplash_link"]
  const DownloadStatsColumns: seq<string> := ["date", "total_downloaded", "failed_downloads", "total_file_size"]
  const CategoryStatsColumns: seq<string> := ["category", "category_slug", "count", "last_updated"]
  const DownloadUrlsColumns: seq<string> :=
    ["id", "image_id", "url_type", "url", "accessed_time", "status_code", "response_time"]
  const ErrorLogsColumns: seq<string> :=
    ["id", "image_id", "error_type", "error_message", "error_time", "url", "stack_trace"]
  const ImageTagsColumns: seq<string> := ["id", "image_id", "tag"]

  /** The six `CREATE TABLE IF NOT EXISTS` statements, in the order they run. */
  const Schema: seq<(string, seq<string>)> := [
    (ImagesTable, ImagesColumns),
    (DownloadStatsTable, DownloadStatsColumns),
    (CategoryStatsTable, CategoryStatsColumns),
    (DownloadUrlsTable, DownloadUrlsColumns),
    (ErrorLogsTable, ErrorLogsColumns),
    (ImageTagsTable, ImageTagsColumns)]

  /** The tables the health check looks for, in its order. */
  const HealthTables: seq<string> :=
    [ImagesTable, DownloadStatsTable, CategoryStatsTable, DownloadUrlsTable, ErrorLogsTable, ImageTagsTable]

  /** The columns of `images` the health check requires. */
  const RequiredColumns: seq<string> := ["id", "filename", "category", "download_time"]

  /**
   * `CREATE TABLE IF NOT EXISTS`, statement by statement: a table that
   * exists keeps its columns, a missing one gets the listed columns, and
   * no other table appears.
   */
  function CreateIfMissing(tables: map<string, seq<string>>, schema: seq<(string, seq<string>)>)
    : (r: map<string, seq<string>>)
    ensures forall t :: t in tables ==> t in r && r[t] == tables[t]
    ensures forall i :: 0 <= i < |schema| ==> schema[i].0 in r
    ensures forall t :: t in r ==> t in tables || exists i :: 0 <= i < |schema| && schema[i].0 == t
    ensures schema != [] && schema[0].0 !in tables ==> r[schema[0].0] == schema[0].1
    decreases |schema|
  {
    if schema == [] then tables
    else
      var t := CreateIfMissing(if schema[0].0 in tables then tables else tables[schema[0].0 := schema[0].1], schema[1..]);
      assert forall i :: 1 <= i < |schema| ==> schema[i].0 == schema[1..][i - 1].0;
      t
  }

  /**
   * Every statement creates its own table with its own columns: a table
   * that did not exist, named first by statement `i`, gets the columns
   * that statement lists.
   */
  lemma {:induction false} CreatedColumns(tables: map<string, seq<string>>, schema: seq<(string, seq<string>)>, i: nat)
    requires i < |schema| && schema[i].0 !in tables
    requires forall j :: 0 <= j < i ==> schema[j].0 != schema[i].0
    ensures CreateIfMissing(tables, schema)[schema[i].0] == schema[i].1
    decreases |schema|
  {
    if i > 0 {
      var before := if schema[0].0 in tables then tables else tables[schema[0].0 := schema[0].1];
      assert schema[1..][i - 1] == schema[i];
      assert forall j :: 0 <= j < i - 1 ==> schema[1..][j] == schema[j + 1];
      CreatedColumns(before, schema[1..], i - 1);
    }
  }

  /** Each of the six tables that was missing gets the columns of its `CREATE TABLE` statement. */
  lemma SchemaColumns(tables: map<string, seq<string>>)
    ensures forall i :: 0 <= i < |Schema| && Schema[i].0 !in tables ==> CreateIfMissing(tables, Schema)[Schema[i].0] == Schema[i].1
  {
    forall i | 0 <= i < |Schema| && Schema[i].0 !in tables
      ensures CreateIfMissing(tables, Schema)[Schema[i].0] == Schema[i].1
    {
      assert forall j :: 0 <= j < i ==> Schema[j].0 != Schema[i].0;
      CreatedColumns(tables, Schema, i);
    }
  }

  /** `INSERT OR IGNORE` of a zero row keyed by the display name `name`. */
  function SeedOne(stats: map<string, CategoryStat>, slug: string, name: string, now: string)
    : (r: map<string, CategoryStat>)
    ensures r.Keys == stats.Keys + {name}
    ensures forall k :: k in stats ==> r[k] == stats[k]
    ensures name !in stats ==> r[name] == CategoryStat(slug, 0, now)
  {
    if name in stats then stats else stats[name := CategoryStat(slug, 0, now)]
  }

  /**
   * The seeding loop over `UNSPLASH_CATEGORIES.items()`, one insert per
   * slug in order, `names[i]` being the display name of `slugs[i]`:
   * existing rows are kept as they are, every added row has count 0 and
   * time `now`, and the names added are the items' names.
   */
  function SeedCategories(stats: map<string, CategoryStat>, slugs: seq<string>, names: seq<string>, now: string)
    : (r: map<string, CategoryStat>)
    requires |slugs| == |names|
    ensures forall k :: k in stats ==> k in r && r[k] == stats[k]
    ensures forall i :: 0 <= i < |names| ==> names[i] in r
    ensures forall k :: k in r ==> k in stats || k in names
    ensures forall k :: k in r && k !in stats ==> r[k].count == 0 && r[k].lastUpdated == now
    decreases |slugs|
  {
    if slugs == [] then stats
    else
      var n := |slugs| - 1;
      assert forall i :: 0 <= i < n ==> names[..n][i] == names[i];
      SeedOne(SeedCategories(stats, slugs[..n], names[..n], now), slugs[n], names[n], now)
  }

  /** Seeding one more item is one more `SeedOne`. */
  lemma SeedCategoriesSnoc(stats: map<string, CategoryStat>, slugs: seq<string>, names: seq<string>, now: string, i: nat)
    requires |slugs| == |names| && i < |slugs|
    ensures SeedCategories(stats, slugs[..i + 1], names[..i + 1], now)
         == SeedOne(SeedCategories(stats, slugs[..i], names[..i], now), slugs[i], names[i], now)
  {
    assert slugs[..i + 1][..i] == slugs[..i] && names[..i + 1][..i] == names[..i];
  }

  /**
   * A name that no other item shares, and which was not there before,
   * gets a zero row with its own slug.
   */
  lemma {:induction false} SeededSlug(stats: map<string, CategoryStat>, slugs: seq<string>, names: seq<string>,
                                      now: string, i: nat)
    requires |slugs| == |names| && i < |slugs| && names[i] !in stats
    requires forall j :: 0 <= j < |names| && j != i ==> names[j] != names[i]
    ensures SeedCategories(stats, slugs, names, now)[names[i]] == CategoryStat(slugs[i], 0, now)
    decreases |slugs|
  {
    var n := |slugs| - 1;
    var prev := SeedCategories(stats, slugs[..n], names[..n], now);
    assert SeedCategories(stats, slugs, names, now) == SeedOne(prev, slugs[n], names[n], now);
    if i < n {
      assert names[..n][i] == names[i] && slugs[..n][i] == slugs[i];
      assert forall j :: 0 <= j < n && j != i ==> names[..n][j] != names[i];
      SeededSlug(stats, slugs[..n], names[..n], now, i);
      assert names[i] in prev && names[n] != names[i];
    } else {
      assert names[i] !in prev by {
        assert forall j :: 0 <= j < n ==> names[..n][j] != names[i];
      }
    }
  }

  /** Both seeding steps of `init_database`: the known categories, then the fallback. */
  function Seeded(stats: map<string, CategoryStat>, now: string): map<string, CategoryStat> {
    SeedOne(SeedCategories(stats, Config.SlugOrder, Config.NameOrder, now), Config.OtherSlug, Config.OtherName, now)
  }

  /**
   * Seeding keeps every existing row, adds a row for every display name
   * and for `其他`, adds nothing else, and every added row is a zero row
   * stamped with the seeding time.
   */
  lemma SeededShape(stats: map<string, CategoryStat>, now: string)
    ensures forall k :: k in stats ==> k in Seeded(stats, now) && Seeded(stats, now)[k] == stats[k]
    ensures forall i :: 0 <= i < |Config.NameOrder| ==> Config.NameOrder[i] in Seeded(stats, now)
    ensures Config.OtherName in Seeded(stats, now)
    ensures forall k :: k in Seeded(stats, now) ==> k in stats || k in Config.NameOrder || k == Config.OtherName
    ensures forall k :: k in Seeded(stats, now) && k !in stats ==>
      Seeded(stats, now)[k].count == 0 && Seeded(stats, now)[k].lastUpdated == now
  {
  }

  /** The store `init_database` leaves: create and seed only when `images` is absent. */
  function InitEffect(s: Snapshot, now: string, fault: bool): Snapshot {
    if fault || ImagesTable in s.tables then s
    else s.(tables := CreateIfMissing(s.tables, Schema),
            categoryStats := Seeded(s.categoryStats, now))
  }

  /** What `check_database_health` looks at: all six tables and the four columns of `images`. */
  predicate Healthy(tables: map<string, seq<string>>): (ok: bool)
    ensures ok <==>
      && (forall t :: t in HealthTables ==> t in tables)
      && ImagesTable in tables && Absent(RequiredColumns, tables[ImagesTable]) == []
  {
    var ok := && (forall t :: t in HealthTables ==> t in tables)
              && ImagesTable in tables
              && (forall c :: c in RequiredColumns ==> c in tables[ImagesTable]);
    assert ImagesTable in tables ==>
      var missing := Absent(RequiredColumns, tables[ImagesTable]);
      missing != [] ==> missing[0] in missing;
    ok
  }

  /**
   * What `init_database` never does: a successful run always leaves an
   * `images` table; no existing table loses its columns and no existing
   * category row changes; the other tables' rows are untouched; and it
   * changes something only when it succeeds on a store without `images`.
   */
  lemma InitEffectKeeps(s: Snapshot, now: string, fault: bool)
    ensures !fault ==> ImagesTable in InitEffect(s, now, fault).tables
    ensures forall x :: x in s.tables ==>
      x in InitEffect(s, now, fault).tables && InitEffect(s, now, fault).tables[x] == s.tables[x]
    ensures forall k :: k in s.categoryStats ==>
      k in InitEffect(s, now, fault).categoryStats && InitEffect(s, now, fault).categoryStats[k] == s.categoryStats[k]
    ensures InitEffect(s, now, fault).images == s.images && InitEffect(s, now, fault).imageTags == s.imageTags
    ensures InitEffect(s, now, fault).downloadStats == s.downloadStats && InitEffect(s, now, fault).errorLogs == s.errorLogs
    ensures InitEffect(s, now, fault) != s ==> !fault && ImagesTable !in s.tables
  {
  }

  /** The list comprehension over `required_columns`: the names not present, in order. */
  function Absent(names: seq<string>, present: seq<string>): (r: seq<string>)
    ensures forall x :: x in r <==> x in names && x !in present
    ensures |r| <= |names|
  {
    if names == [] then []
    else (if names[0] in present then [] else [names[0]]) + Absent(names[1..], present)
  }

  class DbManager {
    const db: Database

    /** `__init__` connects and runs `init_database`. */
    constructor (db: Database, now: string, fault: bool)
      requires db.Valid()
      modifies db
      ensures this.db == db && db.Valid()
      ensures db.Snap() == InitEffect(old(db.Snap()), now, fault)
    {
      this.db := db;
      new;
      var _ := InitDatabase(now, fault);
    }

    /**
     * `init_database`: when `images` is absent, creates the six tables
     * and seeds `category_stats`; otherwise changes nothing. Returns False
     * exactly on a store error.
     */
    method InitDatabase(now: string, fault: bool) returns (ok: bool)
      requires db.Valid()
      modifies db
      ensures db.Valid()
      ensures ok == !fault
      ensures db.Snap() == InitEffect(old(db.Snap()), now, fault)
    {
      if fault {
        return false;
      }
      if ImagesTable in db.tables {
        return true;
      }
      CreateAndSeed(now);
      ok := true;
    }

    /** The body of `init_database` on a store without `images`: the six tables, then the seed rows. */
    method CreateAndSeed(now: string)
      requires db.Valid()
      modifies db
      ensures db.Valid()
      ensures db.Snap() == old(db.Snap()).(tables := CreateIfMissing(old(db.tables), Schema),
                                          categoryStats := Seeded(old(db.categoryStats), now))
    {
      CreatesHealthTables(db.tables);
      db.tables := CreateIfMissing(db.tables, Schema);
      Config.NameOrderMatchesTable();
      SeedCategoryStats(Config.SlugOrder, Config.NameOrder, now);
      if Config.OtherName !in db.categoryStats {
        db.categoryStats := db.categoryStats[Config.OtherName := CategoryStat(Config.OtherSlug, 0, now)];
      }
    }

    /** The `INSERT OR IGNORE` loop over the categories, one slug at a time. */
    method SeedCategoryStats(slugs: seq<string>, names: seq<string>, now: string)
      requires db.Valid() && CategoryStatsTable in db.tables && |slugs| == |names|
      modifies db
      ensures db.Valid()
      ensures db.Snap() == old(db.Snap()).(categoryStats := SeedCategories(old(db.categoryStats), slugs, names, now))
    {
      var i := 0;
      while i < |slugs|
        invariant 0 <= i <= |slugs|
        invariant db.categoryStats == SeedCategories(old(db.categoryStats), slugs[..i], names[..i], now)
        invariant db.tables == old(db.tables) && db.images == old(db.images) && db.imageTags == old(db.imageTags)
        invariant db.downloadStats == old(db.downloadStats) && db.errorLogs == old(db.errorLogs)
      {
        SeedCategoriesSnoc(old(db.categoryStats), slugs, names, now, i);
        var slug, name := slugs[i], names[i];
        if name !in db.categoryStats {
          db.categoryStats := db.categoryStats[name := CategoryStat(slug, 0, now)];
        }
        i := i + 1;
      }
      assert slugs[..|slugs|] == slugs && names[..|names|] == names;
    }

    /**
     * `check_database_health`: True iff all six tables and the four
     * required columns of `images` exist; False on a store error. When
     * `images` itself is missing, the code reads `required_columns`
     * before assigning it and the call raises.
     */
    method CheckDatabaseHealth(fault: bool) returns (r: Outcome<bool>)
      ensures fault ==> r == Returned(false)
      ensures !fault && ImagesTable !in db.tables ==> r == Raised
      ensures !fault && ImagesTable in db.tables ==> r == Returned(Healthy(db.tables))
    {
      if fault {
        return Returned(false);
      }
      var missingTables: seq<string> := [];
      var i := 0;
      while i < |HealthTables|
        invariant 0 <= i <= |HealthTables|
        invariant forall t :: t in missingTables <==> t in HealthTables[..i] && t !in db.tables
      {
        if HealthTables[i] !in db.tables {
          missingTables := missingTables + [HealthTables[i]];
        }
        i := i + 1;
      }
      assert HealthTables[..i] == HealthTables;
      if ImagesTable in missingTables {
        return Raised;
      }
      var missingColumns := Absent(RequiredColumns, db.tables[ImagesTable]);
      assert missingTables != [] ==> missingTables[0] in missingTables;
      assert missingColumns != [] ==> missingColumns[0] in missingColumns;
      r := Returned(missingTables == [] && missingColumns == []);
    }

    /**
     * `repair_database`: backs up and deletes the file, then runs
     * `init_database` on the empty store and returns its result. A file
     * error during the backup or the delete returns False.
     */
    method RepairDatabase(now: string, fileFault: bool, initFault: bool) returns (ok: bool)
      requires db.Valid()
      modifies db
      ensures db.Valid()
      ensures ok == (!fileFault && !initFault)
      ensures fileFault ==> db.Snap() == old(db.Snap())
      ensures !fileFault ==> db.Snap() == InitEffect(EmptyStore, now, initFault)
    {
      if fileFault {
        return false;
      }
      db.Reset();
      ok := InitDatabase(now, initFault);
    }
  }

  /** A second `init_database` after a successful one changes nothing. */
  lemma InitIdempotent(s: Snapshot, now: string, later: string, fault: bool)
    ensures InitEffect(InitEffect(s, now, false), later, fault) == InitEffect(s, now, false)
  {
  }

  /** Pre-existing category rows keep their counts through `init_database`. */
  lemma InitKeepsCategoryRows(s: Snapshot, now: string, fault: bool, name: string)
    requires name in s.categoryStats
    ensures name in InitEffect(s, now, fault).categoryStats
    ensures InitEffect(s, now, fault).categoryStats[name] == s.categoryStats[name]
  {
  }

  /**
   * Initialising a store without `images` and without category rows
   * leaves exactly one zero row per known category, under its display
   * name with its own slug, plus the fallback row.
   */
  lemma FreshSeed(s: Snapshot, now: string)
    requires ImagesTable !in s.tables && s.categoryStats == map[]
    ensures forall slug :: slug in Config.Categories ==>
      && Config.Categories[slug] in InitEffect(s, now, false).categoryStats
      && InitEffect(s, now, false).categoryStats[Config.Categories[slug]] == CategoryStat(slug, 0, now)
    ensures Config.OtherName in InitEffect(s, now, false).categoryStats
    ensures InitEffect(s, now, false).categoryStats[Config.OtherName] == CategoryStat(Config.OtherSlug, 0, now)
    ensures InitEffect(s, now, false).categoryStats.Keys == Config.Categories.Values + {Config.OtherName}
  {
    FreshSeedRows(s, now);
    FreshSeedOther(s, now);
    FreshSeedKeys(s, now);
  }

  /** Each known category gets a zero row under its display name, with its own slug. */
  lemma FreshSeedRows(s: Snapshot, now: string)
    requires ImagesTable !in s.tables && s.categoryStats == map[]
    ensures forall slug :: slug in Config.Categories ==>
      && Config.Categories[slug] in InitEffect(s, now, false).categoryStats
      && InitEffect(s, now, false).categoryStats[Config.Categories[slug]] == CategoryStat(slug, 0, now)
  {
    forall slug | slug in Config.Categories
      ensures Config.Categories[slug] in InitEffect(s, now, false).categoryStats
      ensures InitEffect(s, now, false).categoryStats[Config.Categories[slug]] == CategoryStat(slug, 0, now)
    {
      SeededKnown(slug, now);
    }
  }

  /** The fallback category gets its zero row. */
  lemma FreshSeedOther(s: Snapshot, now: string)
    requires ImagesTable !in s.tables && s.categoryStats == map[]
    ensures Config.OtherName in InitEffect(s, now, false).categoryStats
    ensures InitEffect(s, now, false).categoryStats[Config.OtherName] == CategoryStat(Config.OtherSlug, 0, now)
  {
    SeededNamesKnown(now);
  }

  /** No other rows appear. */
  lemma FreshSeedKeys(s: Snapshot, now: string)
    requires ImagesTable !in s.tables && s.categoryStats == map[]
    ensures InitEffect(s, now, false).categoryStats.Keys == Config.Categories.Values + {Config.OtherName}
  {
    Config.NameOrderMatchesTable();
    var seeded := SeedCategories(map[], Config.SlugOrder, Config.NameOrder, now);
    forall slug | slug in Config.Categories
      ensures Config.Categories[slug] in seeded
    {
      SeededKnown(slug, now);
    }
    SeededNamesKnown(now);
  }

  /** A known slug's row in the seed of an empty table. */
  lemma SeededKnown(slug: string, now: string)
    requires slug in Config.Categories
    ensures |Config.SlugOrder| == |Config.NameOrder|
    ensures Config.Categories[slug] in SeedCategories(map[], Config.SlugOrder, Config.NameOrder, now)
    ensures SeedCategories(map[], Config.SlugOrder, Config.NameOrder, now)[Config.Categories[slug]] == CategoryStat(slug, 0, now)
    ensures Config.Categories[slug] != Config.OtherName
  {
    var slugs, names := Config.SlugOrder, Config.NameOrder;
    Config.SlugOrderIsTable();
    Config.NameOrderMatchesTable();
    Config.NamesDistinct();
    var i :| 0 <= i < |slugs| && slugs[i] == slug;
    forall j | 0 <= j < |names| && j != i
      ensures names[j] != names[i]
    {
      if j < i {
        assert names[j] != names[i];
      } else {
        assert names[i] != names[j];
      }
    }
    assert names[i] in names;
    SeededSlug(map[], slugs, names, now, i);
  }

  /** The seed of an empty table holds only the known display names. */
  lemma SeededNamesKnown(now: string)
    ensures |Config.SlugOrder| == |Config.NameOrder|
    ensures forall k :: k in SeedCategories(map[], Config.SlugOrder, Config.NameOrder, now) ==>
      k in Config.Categories.Values && k != Config.OtherName
  {
    var slugs, names := Config.SlugOrder, Config.NameOrder;
    Config.SlugOrderIsTable();
    Config.NameOrderMatchesTable();
    Config.NamesDistinct();
    forall k | k in SeedCategories(map[], slugs, names, now)
      ensures k in Config.Categories.Values && k != Config.OtherName
    {
      var i :| 0 <= i < |names| && names[i] == k;
      assert slugs[i] in Config.Categories;
    }
  }

  /** The six `CREATE TABLE` statements create every table the health check looks for. */
  lemma CreatesHealthTables(tables: map<string, seq<string>>)
    ensures forall x :: x in HealthTables ==> x in CreateIfMissing(tables, Schema)
  {
    var r := CreateIfMissing(tables, Schema);
    assert Schema[0].0 in r && Schema[1].0 in r && Schema[2].0 in r;
    assert Schema[3].0 in r && Schema[4].0 in r && Schema[5].0 in r;
  }

  /** A successful initialisation of a store without `images` passes the health check. */
  lemma InitMakesHealthy(s: Snapshot, now: string)
    requires ImagesTable !in s.tables
    ensures ImagesTable in InitEffect(s, now, false).tables
    ensures Healthy(InitEffect(s, now, false).tables)
  {
    CreatesHealthTables(s.tables);
    assert forall c :: c in RequiredColumns ==> c in ImagesColumns;
  }

  /** A healthy store is left alone by `init_database`. */
  lemma HealthyIsInitialised(s: Snapshot, now: string, fault: bool)
    requires Healthy(s.tables)
    ensures InitEffect(s, now, fault) == s
  {
  }

  /**
   * After a successful repair the store is freshly initialised: healthy,
   * with no images, tags, error rows or daily counters, and one zero row
   * per seeded category.
   */
  lemma RepairedStore(now: string)
    ensures Healthy(InitEffect(EmptyStore, now, false).tables)
    ensures InitEffect(EmptyStore, now, false).images == map[]
    ensures InitEffect(EmptyStore, now, false).imageTags == []
    ensures InitEffect(EmptyStore, now, false).downloadStats == map[]
    ensures InitEffect(EmptyStore, now, false).errorLogs == []
    ensures InitEffect(EmptyStore, now, false).categoryStats.Keys == Config.Categories.Values + {Config.OtherName}
    ensures forall k :: k in InitEffect(EmptyStore, now, false).categoryStats ==>
      InitEffect(EmptyStore, now, false).categoryStats[k].count == 0
  {
    InitMakesHealthy(EmptyStore, now);
    FreshSeed(EmptyStore, now);
  }

  /**
   * A photo fetched for a known category is filed under a name that the
   * fresh seed created, so its save bumps a seeded row and keeps that
   * row's slug.
   */
  lemma FetchedCategoryIsSeeded(slug: string, response: Photos.ApiResponse, requestIds: seq<string>, i: nat,
                                s: Snapshot, now: string)
    requires slug in Config.Categories && Photos.ListOfSize(response, |requestIds|)
    requires Photos.GetPhotosByCategory(slug, response, requestIds).Photos?
    requires i < |Photos.GetPhotosByCategory(slug, response, requestIds).photos|
    requires ImagesTable !in s.tables && s.categoryStats == map[]
    ensures Photos.ResolveCategory(Photos.GetPhotosByCategory(slug, response, requestIds).photos[i]).1
            in InitEffect(s, now, false).categoryStats
    ensures InitEffect(s, now, false).categoryStats[Photos.ResolveCategory(Photos.GetPhotosByCategory(slug, response, requestIds).photos[i]).1]
            == CategoryStat(slug, 0, now)
  {
    Photos.FetchedPhotosResolve(slug, response, requestIds, i);
    FreshSeed(s, now);
  }

  /** A healthy store has every table `save_image_info` writes. */
  lemma HealthyCanSave(tables: map<string, seq<string>>)
    requires Healthy(tables)
    ensures ImagesTable in tables && ImageTagsTable in tables
    ensures CategoryStatsTable in tables && DownloadStatsTable in tables
  {
  }
}
