/**
 * The SQLite database shared by the downloader and the database manager,
 * as an in-memory store: one map or sequence per table, plus the schema
 * (which tables exist and their column names).
 */
module Store {
  import opened Wrappers

  /** Names of the six tables. */
  const ImagesTable: string := "images"
  const DownloadStatsTable: string := "download_stats"
  const CategoryStatsTable: string := "category_stats"
  const DownloadUrlsTable: string := "download_urls"
  const ErrorLogsTable: string := "error_logs"
  const ImageTagsTable: string := "image_tags"

  /** A row of `images`, keyed by the Unsplash photo id. */
  datatype ImageRow = ImageRow(
    id: string, filename: string, description: string, altDescription: string,
    userName: string, userUsername: string, userId: string,
    urlRaw: string, urlFull: string, urlRegular: string, urlSmall: string, urlThumb: string,
    downloadTime: string, width: int, height: int, color: string, likes: int,
    tags: seq<string>, category: string, categorySlug: string,
    createdAt: string, updatedAt: string, exifData: string, locationData: string,
    downloadStatus: string, errorMessage: Option<string>,
    fileSize: int, fileHash: string, apiRequestId: string, unsplashLink: string)

  /** A row of `category_stats`, keyed by the category's display name. */
  datatype CategoryStat = CategoryStat(slug: string, count: int, lastUpdated: string)

  /** A row of `download_stats`, keyed by the calendar date `YYYY-MM-DD`. */
  datatype DayStat = DayStat(totalDownloaded: int, failedDownloads: int, totalFileSize: int)

  /** A row of `image_tags`; the table has no key, so duplicates are kept. */
  datatype TagRow = TagRow(imageId: string, tag: string)

  /** A row of `error_logs` (its autoincrement id is the position in the sequence). */
  datatype ErrorLogRow = ErrorLogRow(
    imageId: string, errorType: string, errorMessage: string,
    errorTime: string, url: string, stackTrace: string)

  /**
   * The category-counter upsert: a new row starts at 1 with the given slug;
   * an existing row gains exactly 1 and a new timestamp but keeps its slug.
   * No other row changes.
   */
  function UpsertCategory(stats: map<string, CategoryStat>, name: string, slug: string, now: string)
    : (r: map<string, CategoryStat>)
    ensures r.Keys == stats.Keys + {name}
    ensures r[name].count == (if name in stats then stats[name].count else 0) + 1
    ensures r[name].slug == (if name in stats then stats[name].slug else slug)
    ensures r[name].lastUpdated == now
    ensures forall k :: k in stats && k != name ==> r[k] == stats[k]
  {
    if name in stats then
      stats[name := stats[name].(count := stats[name].count + 1, lastUpdated := now)]
    else
      stats[name := CategoryStat(slug, 1, now)]
  }

  /**
   * The per-day success upsert: one more download and `size` more bytes,
   * the failure count untouched; a new day starts at (1, 0, size).
   */
  function UpsertDownloaded(stats: map<string, DayStat>, day: string, size: int): (r: map<string, DayStat>)
    ensures r.Keys == stats.Keys + {day}
    ensures day in stats ==> r[day] == DayStat(stats[day].totalDownloaded + 1, stats[day].failedDownloads, stats[day].totalFileSize + size)
    ensures day !in stats ==> r[day] == DayStat(1, 0, size)
    ensures forall d :: d in stats && d != day ==> r[d] == stats[d]
  {
    if day in stats then
      stats[day := stats[day].(totalDownloaded := stats[day].totalDownloaded + 1,
                               totalFileSize := stats[day].totalFileSize + size)]
    else
      stats[day := DayStat(1, 0, size)]
  }

  /**
   * The per-day failure upsert: one more failure, downloads and bytes
   * untouched; a new day starts at (0, 1, 0).
   */
  function UpsertFailed(stats: map<string, DayStat>, day: string): (r: map<string, DayStat>)
    ensures r.Keys == stats.Keys + {day}
    ensures day in stats ==> r[day] == DayStat(stats[day].totalDownloaded, stats[day].failedDownloads + 1, stats[day].totalFileSize)
    ensures day !in stats ==> r[day] == DayStat(0, 1, 0)
    ensures forall d :: d in stats && d != day ==> r[d] == stats[d]
  {
    if day in stats then
      stats[day := stats[day].(failedDownloads := stats[day].failedDownloads + 1)]
    else
      stats[day := DayStat(0, 1, 0)]
  }

  /** One `(image_id, tag)` row per tag, in order. */
  function TagRows(id: string, tags: seq<string>): (rows: seq<TagRow>)
    ensures |rows| == |tags|
    ensures forall i :: 0 <= i < |tags| ==> rows[i] == TagRow(id, tags[i])
  {
    if tags == [] then [] else [TagRow(id, tags[0])] + TagRows(id, tags[1..])
  }

  /** The contents of the whole database at one moment. */
  datatype Snapshot = Snapshot(
    tables: map<string, seq<string>>,
    images: map<string, ImageRow>,
    imageTags: seq<TagRow>,
    categoryStats: map<string, CategoryStat>,
    downloadStats: map<string, DayStat>,
    errorLogs: seq<ErrorLogRow>)

  /** Rows exist only in tables that exist. */
  predicate Consistent(s: Snapshot) {
    && (ImagesTable !in s.tables ==> s.images == map[])
    && (ImageTagsTable !in s.tables ==> s.imageTags == [])
    && (CategoryStatsTable !in s.tables ==> s.categoryStats == map[])
    && (DownloadStatsTable !in s.tables ==> s.downloadStats == map[])
    && (ErrorLogsTable !in s.tables ==> s.errorLogs == [])
  }

  /** The store with no tables at all, as a fresh or deleted database file reads. */
  const EmptyStore: Snapshot := Snapshot(map[], map[], [], map[], map[], [])

  /**
   * The database file. A connection to a file that does not exist yet
   * creates it empty, so the initial store has no tables.
   */
  class Database {
    var tables: map<string, seq<string>>
    var images: map<string, ImageRow>
    var imageTags: seq<TagRow>
    var categoryStats: map<string, CategoryStat>
    var downloadStats: map<string, DayStat>
    var errorLogs: seq<ErrorLogRow>

    /** The current contents of every table. */
    function Snap(): Snapshot
      reads this
    {
      Snapshot(tables, images, imageTags, categoryStats, downloadStats, errorLogs)
    }

    ghost predicate Valid()
      reads this
    {
      Consistent(Snap())
    }

    constructor ()
      ensures Valid() && Snap() == EmptyStore
    {
      tables, images, imageTags := map[], map[], [];
      categoryStats, downloadStats, errorLogs := map[], map[], [];
    }

    /** Deletes the database file: afterwards a connection sees an empty store. */
    method Reset()
      modifies this
      ensures Valid() && Snap() == EmptyStore
    {
      tables, images, imageTags := map[], map[], [];
      categoryStats, downloadStats, errorLogs := map[], map[], [];
    }
  }
}
