/**
 * The downloader object: its store operations (existence check, metadata
 * save, failure counter, error log), the per-photo download decision
 * flow, the per-batch loop and the outer category download loop.
 *
 * The network, the clock, hashing and the random category choice are
 * inputs: a `PhotoEnv` says what each photo's transfer and store calls do,
 * an `Iteration` says what one pass of the outer loop receives. The
 * filesystem is the set of paths of files present.
 */
module Downloader {
  import opened Wrappers
  import Config
  import opened Store
  import opened Photos
  import opened BatchCounter

  /** What the image request and the streaming to disk did. */
  datatype Transfer =
    /** The request raised or `raise_for_status` rejected the status: no file was opened. */
    | RequestFailed
    /** The file was opened and streaming then raised: a partial file stays. */
    | StreamBroken
    /** All bytes were written; `size` is the file's size. */
    | Streamed(size: nat)

  /** The inputs of one `download_image` call. */
  datatype PhotoEnv = PhotoEnv(
    lookupFault: bool,     // the existence query raises sqlite3.Error
    transfer: Transfer,
    timestamp: string,     // datetime.now() as %Y%m%d_%H%M%S
    now: string,           // datetime.now() in ISO format
    today: string,         // datetime.now() as %Y-%m-%d
    fileHash: string,      // digest of the written file, "" when hashing failed
    saveFault: bool,       // a statement of save_image_info raises sqlite3.Error
    logFault: bool,        // the error-log insert raises sqlite3.Error
    failFault: bool,       // the failure-counter upsert raises sqlite3.Error
    errorMessage: string,  // str(e) of the caught exception
    stackTrace: string)    // traceback.format_exc()

  /** The inputs of one pass of the category download loop. */
  datatype Iteration = Iteration(
    selected: string,         // random.choice over the category slugs
    response: ApiResponse,    // what the random-photos request produced
    requestIds: seq<string>,  // the digest stamped on each returned element
    photoEnvs: seq<PhotoEnv>, // one per returned photo
    statsOk: bool)            // get_download_stats did not fail (it returns {} on a store error)

  /** The error type `download_image` logs. */
  const DownloadError: string := "download_error"

  /**
   * The tables `save_image_info` writes to for a photo with `tags`; a
   * missing one makes a statement fail. No `image_tags` statement runs
   * when there are no tags, so that table is needed only when there are.
   */
  predicate SaveTablesReady(tables: map<string, seq<string>>, tags: seq<string>) {
    && ImagesTable in tables && (tags != [] ==> ImageTagsTable in tables)
    && CategoryStatsTable in tables && DownloadStatsTable in tables
  }

  /** `log_error`: appends the row unless the insert fails. */
  function AppendLog(logs: seq<ErrorLogRow>, tables: map<string, seq<string>>, row: ErrorLogRow, fault: bool)
    : (r: seq<ErrorLogRow>)
    ensures r == logs || r == logs + [row]
    ensures r == logs + [row] <==> !fault && ErrorLogsTable in tables
  {
    if !fault && ErrorLogsTable in tables then logs + [row] else logs
  }

  /** `record_failed_download`: the failure upsert for `day`, unless it fails. */
  function RecordFailure(stats: map<string, DayStat>, tables: map<string, seq<string>>, day: string, fault: bool)
    : (r: map<string, DayStat>)
    ensures !fault && DownloadStatsTable in tables ==> r == UpsertFailed(stats, day)
    ensures fault || DownloadStatsTable !in tables ==> r == stats
  {
    if !fault && DownloadStatsTable in tables then UpsertFailed(stats, day) else stats
  }

  /** The error-log row of a failed download. */
  function ErrorRow(p: Photo, env: PhotoEnv): (row: ErrorLogRow)
    requires p.id.Some? && p.urls.Some?
    ensures row.imageId == p.id.value && row.errorType == DownloadError
    ensures row.url == Get(p.urls.value, "raw") && row.errorTime == env.now
    ensures row.errorMessage == env.errorMessage && row.stackTrace == env.stackTrace
  {
    ErrorLogRow(p.id.value, DownloadError, env.errorMessage, env.now, Get(p.urls.value, "raw"), env.stackTrace)
  }

  /** The ways one `download_image` call can go. */
  datatype Route =
    | AlreadyStored  // the id is in `images`: skipped
    | NoUrls         // no `urls` object: the except handler itself raises
    | NoTransfer     // no raw URL, or the request failed: nothing written
    | PartialFile    // streaming broke off: the partial file stays
    | SaveRaised     // the metadata save raised (no `user`): the file stays
    | Saved          // file written and metadata committed
    | SaveRejected   // the save returned False: the file is removed

  /**
   * The decision flow of `download_image`, given whether the existence
   * check finds the id and whether the metadata statements succeed.
   */
  function RouteOf(p: Photo, env: PhotoEnv, stored: bool, saveOk: bool): (route: Route)
    ensures route == AlreadyStored <==> stored
    ensures route != AlreadyStored && route != NoUrls ==> p.urls.Some?
    ensures route == Saved <==>
      (!stored && p.urls.Some? && "raw" in p.urls.value && env.transfer.Streamed? && p.user.Some? && saveOk)
  {
    if stored then AlreadyStored
    else if p.urls.None? then NoUrls
    else if "raw" !in p.urls.value || env.transfer.RequestFailed? then NoTransfer
    else if env.transfer.StreamBroken? then PartialFile
    else if p.user.None? then SaveRaised
    else if saveOk then Saved
    else SaveRejected
  }

  /** What `download_image` returns on each route: True only when the photo was saved. */
  function ResultOf(route: Route): (r: Outcome<bool>)
    ensures r == Returned(true) <==> route == Saved
    ensures r == Raised <==> route == NoUrls
  {
    match route
    case Saved => Returned(true)
    case NoUrls => Raised
    case _ => Returned(false)
  }

  /** The files present after each route, given the file the photo is written to. */
  function FilesAfter(route: Route, files: set<Path>, path: Path): (r: set<Path>)
    ensures route in {PartialFile, SaveRaised, Saved} ==> r == files + {path}
    ensures route == SaveRejected ==> r == files - {path}
    ensures route in {AlreadyStored, NoUrls, NoTransfer} ==> r == files
  {
    match route
    case PartialFile => files + {path}
    case SaveRaised => files + {path}
    case Saved => files + {path}
    case SaveRejected => files - {path}
    case _ => files
  }

  /** The store after `save_image_info` commits: the SQL of its four statements. */
  function SavedSnapshot(s: Snapshot, p: Photo, filename: string, slug: string, name: string,
                         fileSize: int, fileHash: string, now: string, today: string): (t: Snapshot)
    requires p.id.Some? && p.user.Some? && p.urls.Some?
  {
    s.(images := s.images[p.id.value := ImageRowFor(p, filename, slug, name, fileSize, fileHash, now)],
       imageTags := s.imageTags + TagRows(p.id.value, PhotoTags(p)),
       categoryStats := UpsertCategory(s.categoryStats, name, slug, now),
       downloadStats := UpsertDownloaded(s.downloadStats, today, fileSize))
  }

  /**
   * What a committed save does: the photo's row is replaced, its tag rows
   * are appended after the old ones, its category and its day each count
   * one more download, and the schema and the error log stay as they were.
   */
  lemma SaveCommits(s: Snapshot, p: Photo, filename: string, slug: string, name: string,
                    fileSize: int, fileHash: string, now: string, today: string)
    requires p.id.Some? && p.user.Some? && p.urls.Some?
    ensures var t := SavedSnapshot(s, p, filename, slug, name, fileSize, fileHash, now, today);
      && t.tables == s.tables && t.errorLogs == s.errorLogs
      && t.images.Keys == s.images.Keys + {p.id.value}
      && t.images[p.id.value] == ImageRowFor(p, filename, slug, name, fileSize, fileHash, now)
      && (forall k :: k in s.images && k != p.id.value ==> t.images[k] == s.images[k])
    ensures var t := SavedSnapshot(s, p, filename, slug, name, fileSize, fileHash, now, today);
      && |t.imageTags| == |s.imageTags| + |PhotoTags(p)| && t.imageTags[..|s.imageTags|] == s.imageTags
      && forall j :: 0 <= j < |PhotoTags(p)| ==> t.imageTags[|s.imageTags| + j] == TagRow(p.id.value, PhotoTags(p)[j])
    ensures var t := SavedSnapshot(s, p, filename, slug, name, fileSize, fileHash, now, today);
      && name in t.categoryStats
      && t.categoryStats[name].count == (if name in s.categoryStats then s.categoryStats[name].count else 0) + 1
      && today in t.downloadStats
      && t.downloadStats[today].totalDownloaded == (if today in s.downloadStats then s.downloadStats[today].totalDownloaded else 0) + 1
  {
  }

  /** The store after the `except` block of `download_image`. */
  function FailedSnapshot(s: Snapshot, p: Photo, env: PhotoEnv): (t: Snapshot)
    requires p.id.Some? && p.urls.Some?
    ensures t.tables == s.tables && t.images == s.images
    ensures t.imageTags == s.imageTags && t.categoryStats == s.categoryStats
    ensures t.errorLogs == s.errorLogs || t.errorLogs == s.errorLogs + [ErrorRow(p, env)]
    ensures t.downloadStats.Keys <= s.downloadStats.Keys + {env.today}
    ensures forall d :: d in s.downloadStats && d != env.today ==> d in t.downloadStats && t.downloadStats[d] == s.downloadStats[d]
  {
    s.(errorLogs := AppendLog(s.errorLogs, s.tables, ErrorRow(p, env), env.logFault),
       downloadStats := RecordFailure(s.downloadStats, s.tables, env.today, env.failFault))
  }

  /** The way `download_image` goes for photo `p` against store `s`. */
  function DownloadRoute(p: Photo, env: PhotoEnv, s: Snapshot): (route: Route)
    requires p.id.Some?
    ensures route == AlreadyStored <==> !env.lookupFault && p.id.value in s.images
    ensures route == NoUrls <==> route != AlreadyStored && p.urls.None?
    ensures route == Saved <==>
      && route != AlreadyStored && p.urls.Some? && "raw" in p.urls.value && env.transfer.Streamed?
      && p.user.Some? && !env.saveFault && SaveTablesReady(s.tables, PhotoTags(p))
  {
    RouteOf(p, env, !env.lookupFault && p.id.value in s.images, !env.saveFault && SaveTablesReady(s.tables, PhotoTags(p)))
  }

  /**
   * A photo without tags runs no `image_tags` statement, so its save and
   * its route do not depend on whether that table exists.
   */
  lemma TagTableOnlyForTags(p: Photo, env: PhotoEnv, s: Snapshot)
    requires p.id.Some? && PhotoTags(p) == []
    ensures SaveTablesReady(s.tables, PhotoTags(p)) <==> SaveTablesReady(s.tables - {ImageTagsTable}, PhotoTags(p))
    ensures DownloadRoute(p, env, s) == DownloadRoute(p, env, s.(tables := s.tables - {ImageTagsTable}))
  {
  }

  /** The store after `download_image` for photo `p`, starting from `s`. */
  function AfterDownload(p: Photo, env: PhotoEnv, s: Snapshot): Snapshot
    requires p.id.Some?
  {
    match DownloadRoute(p, env, s)
    case NoTransfer => FailedSnapshot(s, p, env)
    case PartialFile => FailedSnapshot(s, p, env)
    case SaveRaised => FailedSnapshot(s, p, env)
    case Saved =>
      var (slug, name) := ResolveCategory(p);
      SavedSnapshot(s, p, FileName(env.timestamp, p.id.value), slug, name,
                    env.transfer.size, env.fileHash, env.now, env.today)
    case _ => s
  }

  /** One photo of a batch: skipped for having no `id`, or passed to `download_image`. */
  datatype Visit = NotAPhoto | Tried(outcome: Outcome<bool>)

  /** The number of visits where `download_image` returned True. */
  function CountDownloaded(visits: seq<Visit>): (n: nat)
    ensures n <= |visits|
    decreases |visits|
  {
    if visits == [] then 0
    else (if visits[0] == Tried(Returned(true)) then 1 else 0) + CountDownloaded(visits[1..])
  }

  lemma {:induction false} CountDownloadedSnoc(visits: seq<Visit>, v: Visit)
    ensures CountDownloaded(visits + [v]) == CountDownloaded(visits) + (if v == Tried(Returned(true)) then 1 else 0)
    decreases |visits|
  {
    if visits != [] {
      assert (visits + [v])[1..] == visits[1..] + [v];
      CountDownloadedSnoc(visits[1..], v);
    }
  }

  /**
   * The visits of a batch so far, position by position: a visit is
   * `NotAPhoto` exactly for an element without `id`, and only the last
   * visit may have raised, for a photo with an id but no `urls`.
   */
  predicate VisitsFit(photos: seq<Photo>, visits: seq<Visit>)
    requires |visits| <= |photos|
  {
    forall k :: 0 <= k < |visits| ==>
      && (visits[k] == NotAPhoto <==> photos[k].id.None?)
      && (visits[k] == Tried(Raised) ==> k == |visits| - 1 && photos[k].id.Some? && photos[k].urls.None?)
  }

  /** A visit after a prefix that did not raise keeps `VisitsFit`. */
  lemma VisitsFitSnoc(photos: seq<Photo>, visits: seq<Visit>, v: Visit)
    requires |visits| < |photos| && VisitsFit(photos, visits)
    requires visits == [] || visits[|visits| - 1] != Tried(Raised)
    requires v == NotAPhoto <==> photos[|visits|].id.None?
    requires v == Tried(Raised) ==> photos[|visits|].id.Some? && photos[|visits|].urls.None?
    ensures VisitsFit(photos, visits + [v])
  {
  }

  /**
   * Within a batch, a photo that an earlier visit downloaded is skipped
   * when its id comes again, unless the existence check fails.
   */
  predicate NoRedownload(photos: seq<Photo>, envs: seq<PhotoEnv>, visits: seq<Visit>)
    requires |visits| <= |photos| == |envs|
  {
    forall i, j ::
      (0 <= i < j < |visits| && visits[i] == Tried(Returned(true)) && photos[j].id == photos[i].id && !envs[j].lookupFault)
      ==> visits[j] == Tried(Returned(false))
  }

  /** A visit that skips every id downloaded before it keeps `NoRedownload`. */
  lemma NoRedownloadSnoc(photos: seq<Photo>, envs: seq<PhotoEnv>, visits: seq<Visit>, v: Visit)
    requires |visits| < |photos| == |envs| && NoRedownload(photos, envs, visits)
    requires forall k ::
               (0 <= k < |visits| && visits[k] == Tried(Returned(true)) &&
                photos[|visits|].id == photos[k].id && !envs[|visits|].lookupFault)
               ==> v == Tried(Returned(false))
    ensures NoRedownload(photos, envs, visits + [v])
  {
  }

  /** What one pass of the loop fetched. */
  function FetchOf(it: Iteration): Fetched
    requires ListOfSize(it.response, |it.requestIds|)
  {
    GetPhotosByCategory(it.selected, it.response, it.requestIds)
  }

  /**
   * An iteration supplies one digest per element of a list body and one
   * `PhotoEnv` per photo its fetch returns.
   */
  predicate EnvsFit(it: Iteration) {
    ListOfSize(it.response, |it.requestIds|) &&
    (FetchOf(it).Photos? ==> |it.photoEnvs| == |FetchOf(it).photos|)
  }

  /**
   * How a pass is classified by the loop. A non-empty batch ends cleanly
   * only if the statistics summary worked; it does whenever moreover no
   * photo lacks `urls`; and when it raises although the summary worked,
   * some photo with an id has no `urls`.
   */
  predicate EventMatches(e: BatchEvent, it: Iteration)
    requires EnvsFit(it)
  {
    match FetchOf(it)
    case FetchRaised => e == FetchFailed
    case NoResult => e == NothingFetched
    case EmptyObject => e == NothingFetched
    case EmptyString => e == NothingFetched
    case Photos(ps) =>
      if ps == [] then e == NothingFetched
      else
        && e.Batch? && e.downloaded <= |ps|
        && (e.finished ==> it.statsOk)
        && (it.statsOk && (forall i :: 0 <= i < |ps| ==> ps[i].urls.Some?) ==> e.finished)
        && (it.statsOk && !e.finished ==> exists i :: 0 <= i < |ps| && ps[i].id.Some? && ps[i].urls.None?)
  }

  /** A pass that fetched photos, all with `urls`, and whose statistics summary worked. */
  predicate CleanPass(it: Iteration)
    requires EnvsFit(it)
  {
    && FetchOf(it).Photos? && FetchOf(it).photos != [] && it.statsOk
    && forall i :: 0 <= i < |FetchOf(it).photos| ==> FetchOf(it).photos[i].urls.Some?
  }

  /** A pass that fetched photos but whose statistics summary failed. */
  predicate StatsFailedPass(it: Iteration)
    requires EnvsFit(it)
  {
    FetchOf(it).Photos? && FetchOf(it).photos != [] && !it.statsOk
  }

  class Downloader {
    const db: Database
    const baseDir: Path
    var files: set<Path>

    constructor (db: Database, baseDir: Path, files: set<Path>)
      ensures this.db == db && this.baseDir == baseDir && this.files == files
    {
      this.db := db;
      this.baseDir := baseDir;
      this.files := files;
    }

    /** The file `download_image` writes for photo `p`. */
    function TargetPath(p: Photo, timestamp: string): (path: Path)
      requires p.id.Some?
      ensures |path| == |baseDir| + 3
      ensures path[..|path| - 1] == GetCategoryDirectory(baseDir, ResolveCategory(p).1)
      ensures path[|path| - 1] == FileName(timestamp, p.id.value)
    {
      var path := GetCategoryDirectory(baseDir, ResolveCategory(p).1) + [FileName(timestamp, p.id.value)];
      assert path[..|path| - 1] == GetCategoryDirectory(baseDir, ResolveCategory(p).1);
      path
    }

    /** `is_image_downloaded`: true iff `images` holds the id; a store error reads as false. */
    method IsImageDownloaded(id: string, fault: bool) returns (found: bool)
      requires db.Valid()
      ensures found <==> !fault && id in db.images
    {
      if fault {
        return false;
      }
      found := ImagesTable in db.tables && id in db.images;
    }

    /** The tag loop of `save_image_info`: one `image_tags` row per title, in order. */
    method AppendTagRows(id: string, tags: seq<string>)
      requires db.Valid() && (tags != [] ==> ImageTagsTable in db.tables)
      modifies db
      ensures db.Valid()
      ensures db.Snap() == old(db.Snap()).(imageTags := old(db.imageTags) + TagRows(id, tags))
    {
      var i := 0;
      while i < |tags|
        invariant 0 <= i <= |tags|
        invariant db.Snap() == old(db.Snap()).(imageTags := old(db.imageTags) + TagRows(id, tags[..i]))
        invariant db.Valid()
      {
        TagRowsSnoc(id, tags[..i], tags[i]);
        assert tags[..i + 1] == tags[..i] + [tags[i]];
        db.imageTags := db.imageTags + [TagRow(id, tags[i])];
        i := i + 1;
      }
      assert tags[..|tags|] == tags;
    }

    /**
     * `save_image_info`: replaces the `images` row, appends one tag row per
     * titled tag, bumps the category counter and the day's download
     * counters, as one transaction. A store error (or a missing table)
     * leaves everything as it was and returns False; a photo without a
     * `user` object raises before any statement runs.
     */
    method SaveImageInfo(p: Photo, filename: string, slug: string, name: string,
                         fileSize: int, fileHash: string, now: string, today: string, fault: bool)
      returns (r: Outcome<bool>)
      requires db.Valid() && p.id.Some?
      modifies db
      ensures db.Valid()
      ensures p.user.None? || p.urls.None? ==> r == Raised
      ensures p.user.Some? && p.urls.Some? ==> r == Returned(!fault && SaveTablesReady(old(db.tables), PhotoTags(p)))
      ensures r == Returned(true) ==>
        db.Snap() == SavedSnapshot(old(db.Snap()), p, filename, slug, name, fileSize, fileHash, now, today)
      ensures r != Returned(true) ==> db.Snap() == old(db.Snap())
    {
      if p.user.None? || p.urls.None? {
        return Raised;
      }
      var tags := PhotoTags(p);
      if fault || !SaveTablesReady(db.tables, tags) {
        return Returned(false);
      }
      var id := p.id.value;
      var row := ImageRowFor(p, filename, slug, name, fileSize, fileHash, now);
      db.images := db.images[id := row];
      AppendTagRows(id, tags);
      db.categoryStats := UpsertCategory(db.categoryStats, name, slug, now);
      db.downloadStats := UpsertDownloaded(db.downloadStats, today, fileSize);
      r := Returned(true);
    }

    /** `record_failed_download`: the day's failure upsert; a store error changes nothing. */
    method RecordFailedDownload(today: string, fault: bool)
      requires db.Valid()
      modifies db
      ensures db.Valid()
      ensures db.Snap() == old(db.Snap()).(downloadStats := RecordFailure(old(db.downloadStats), old(db.tables), today, fault))
    {
      if !fault && DownloadStatsTable in db.tables {
        db.downloadStats := UpsertFailed(db.downloadStats, today);
      }
    }

    /** `log_error`: appends one row to `error_logs`; a store error changes nothing. */
    method LogError(row: ErrorLogRow, fault: bool)
      requires db.Valid()
      modifies db
      ensures db.Valid()
      ensures db.Snap() == old(db.Snap()).(errorLogs := AppendLog(old(db.errorLogs), old(db.tables), row, fault))
    {
      if !fault && ErrorLogsTable in db.tables {
        db.errorLogs := db.errorLogs + [row];
      }
    }

    /**
     * The `except` block of `download_image`: one error-log row and one
     * failed download for the day, each skipped when its statement fails.
     */
    method HandleDownloadError(p: Photo, env: PhotoEnv)
      requires db.Valid() && p.id.Some? && p.urls.Some?
      modifies db
      ensures db.Valid()
      ensures db.Snap() == FailedSnapshot(old(db.Snap()), p, env)
    {
      LogError(ErrorRow(p, env), env.logFault);
      RecordFailedDownload(env.today, env.failFault);
    }

    /**
     * `download_image`: skips a stored photo; otherwise resolves its
     * category, writes `<dir>/<timestamp>_<id>.jpg` and saves its metadata,
     * removing the file when the save returns False. A caught exception
     * logs one error row and counts one failed download.
     */
    method DownloadImage(p: Photo, env: PhotoEnv) returns (r: Outcome<bool>)
      requires db.Valid() && p.id.Some?
      modifies this, db
      ensures db.Valid()
      ensures r == ResultOf(DownloadRoute(p, env, old(db.Snap())))
      ensures files == FilesAfter(DownloadRoute(p, env, old(db.Snap())), old(files), TargetPath(p, env.timestamp))
      ensures db.Snap() == AfterDownload(p, env, old(db.Snap()))
    {
      var id := p.id.value;
      var stored := IsImageDownloaded(id, env.lookupFault);
      if stored {
        return Returned(false);
      }
      if p.urls.None? {
        // the handler reads photo_data['urls'] again and raises
        return Raised;
      }
      if "raw" !in p.urls.value || env.transfer.RequestFailed? {
        HandleDownloadError(p, env);
        return Returned(false);
      }
      r := WriteAndSave(p, env);
    }

    /**
     * The part of `download_image` after the request succeeded: stream to
     * the file, save the metadata, and remove the file when the save
     * returns False.
     */
    method WriteAndSave(p: Photo, env: PhotoEnv) returns (r: Outcome<bool>)
      requires db.Valid() && p.id.Some? && p.urls.Some? && "raw" in p.urls.value && !env.transfer.RequestFailed?
      requires env.lookupFault || p.id.value !in db.images
      modifies this, db
      ensures db.Valid()
      ensures r == ResultOf(DownloadRoute(p, env, old(db.Snap())))
      ensures files == FilesAfter(DownloadRoute(p, env, old(db.Snap())), old(files), TargetPath(p, env.timestamp))
      ensures db.Snap() == AfterDownload(p, env, old(db.Snap()))
    {
      var id := p.id.value;
      var (slug, name) := ResolveCategory(p);
      var dir := GetCategoryDirectory(baseDir, name);
      var filename := FileName(env.timestamp, id);
      var path := dir + [filename];
      files := files + {path};
      if env.transfer.StreamBroken? {
        HandleDownloadError(p, env);
        return Returned(false);
      }
      var saved := SaveImageInfo(p, filename, slug, name, env.transfer.size, env.fileHash,
                                 env.now, env.today, env.saveFault);
      if saved == Raised {
        HandleDownloadError(p, env);
        return Returned(false);
      }
      if saved == Returned(false) {
        files := files - {path};
        return Returned(false);
      }
      r := Returned(true);
    }

    /**
     * One element of the batch loop: a photo with an id goes through
     * `download_image`; anything else is passed over.
     */
    method VisitPhoto(p: Photo, env: PhotoEnv) returns (v: Visit)
      requires db.Valid()
      modifies this, db
      ensures db.Valid()
      ensures v == NotAPhoto <==> p.id.None?
      ensures p.id.Some? ==> v == Tried(ResultOf(DownloadRoute(p, env, old(db.Snap()))))
      ensures old(db.images).Keys <= db.images.Keys
      ensures v == Tried(Returned(true)) ==> p.id.value in db.images
      ensures p.id.Some? && !env.lookupFault && p.id.value in old(db.images) ==> v == Tried(Returned(false))
      ensures v == Tried(Raised) ==> p.id.Some? && p.urls.None?
      ensures p.id.None? ==> files == old(files) && db.Snap() == old(db.Snap())
      ensures p.id.Some? ==> db.Snap() == AfterDownload(p, env, old(db.Snap()))
      ensures p.id.Some? ==> files == FilesAfter(DownloadRoute(p, env, old(db.Snap())), old(files), TargetPath(p, env.timestamp))
      ensures ChangesInTree(old(files), files)
    {
      v := NotAPhoto;
      if p.id.Some? {
        ghost var before := db.Snap();
        var o := DownloadImage(p, env);
        AfterDownloadKeepsIds(p, env, before);
        ghost var target := TargetPath(p, env.timestamp);
        assert target[..|baseDir| + 2] == target[..|target| - 1];
        v := Tried(o);
      }
    }

    /** A file directly inside some category directory `base/unsplash_images/<name>`. */
    predicate InImageTree(q: Path) {
      |q| == |baseDir| + 3 && q[..|baseDir| + 2] == GetCategoryDirectory(baseDir, q[|baseDir| + 1])
    }

    /** Every file added or removed between `a` and `b` lies in the image tree. */
    predicate ChangesInTree(a: set<Path>, b: set<Path>) {
      && (forall q :: q in b && q !in a ==> InImageTree(q))
      && (forall q :: q in a && q !in b ==> InImageTree(q))
    }

    lemma ChangesInTreeTrans(a: set<Path>, b: set<Path>, c: set<Path>)
      requires ChangesInTree(a, b) && ChangesInTree(b, c)
      ensures ChangesInTree(a, c)
    {
    }

    /**
     * The inner loop of one pass: every photo with an `id` goes to
     * `download_image`, in order; an exception escaping it ends the pass.
     * `downloaded` counts the calls that returned True.
     */
    method ProcessBatch(photos: seq<Photo>, envs: seq<PhotoEnv>)
      returns (downloaded: nat, finished: bool, visits: seq<Visit>)
      requires db.Valid() && |envs| == |photos|
      modifies this, db
      ensures db.Valid()
      ensures |visits| <= |photos|
      ensures VisitsFit(photos, visits)
      ensures finished <==> |visits| == |photos| && (visits == [] || visits[|visits| - 1] != Tried(Raised))
      ensures !finished ==> visits != [] && visits[|visits| - 1] == Tried(Raised)
      ensures downloaded == CountDownloaded(visits)
      ensures old(db.images).Keys <= db.images.Keys
      ensures forall i :: 0 <= i < |visits| && visits[i] == Tried(Returned(true)) ==> photos[i].id.value in db.images
      ensures NoRedownload(photos, envs, visits)
      ensures (forall i :: 0 <= i < |photos| ==> photos[i].urls.Some?) ==> finished
      ensures !finished ==> photos[|visits| - 1].id.Some? && photos[|visits| - 1].urls.None?
      ensures ChangesInTree(old(files), files)
    {
      downloaded, finished, visits := 0, true, [];
      var i := 0;
      while i < |photos| && finished
        invariant 0 <= i <= |photos| && |visits| == i
        invariant db.Valid()
        invariant VisitsFit(photos, visits)
        invariant finished <==> (visits == [] || visits[i - 1] != Tried(Raised))
        invariant downloaded == CountDownloaded(visits)
        invariant old(db.images).Keys <= db.images.Keys
        invariant forall k :: 0 <= k < i && visits[k] == Tried(Returned(true)) ==> photos[k].id.value in db.images
        invariant NoRedownload(photos, envs, visits)
        invariant ChangesInTree(old(files), files)
      {
        ghost var filesBefore := files;
        var v := BatchStep(photos, envs, visits);
        ChangesInTreeTrans(old(files), filesBefore, files);
        visits := visits + [v];
        if v == Tried(Returned(true)) {
          downloaded := downloaded + 1;
        }
        i := i + 1;
        finished := v != Tried(Raised);
      }
    }

    /**
     * One turn of the batch loop: visits the next photo and extends what
     * the loop keeps about the visits so far by that one visit.
     */
    method BatchStep(photos: seq<Photo>, envs: seq<PhotoEnv>, visits: seq<Visit>) returns (v: Visit)
      requires db.Valid() && |envs| == |photos| && |visits| < |photos|
      requires VisitsFit(photos, visits) && (visits == [] || visits[|visits| - 1] != Tried(Raised))
      requires NoRedownload(photos, envs, visits)
      requires forall k :: 0 <= k < |visits| && visits[k] == Tried(Returned(true)) ==> photos[k].id.value in db.images
      modifies this, db
      ensures db.Valid()
      ensures VisitsFit(photos, visits + [v]) && NoRedownload(photos, envs, visits + [v])
      ensures CountDownloaded(visits + [v]) == CountDownloaded(visits) + (if v == Tried(Returned(true)) then 1 else 0)
      ensures old(db.images).Keys <= db.images.Keys
      ensures forall k :: 0 <= k <= |visits| && (visits + [v])[k] == Tried(Returned(true)) ==> photos[k].id.value in db.images
      ensures ChangesInTree(old(files), files)
    {
      var i := |visits|;
      v := VisitPhoto(photos[i], envs[i]);
      assert forall k ::
               (0 <= k < i && visits[k] == Tried(Returned(true)) && photos[i].id == photos[k].id && !envs[i].lookupFault)
               ==> v == Tried(Returned(false));
      NoRedownloadSnoc(photos, envs, visits, v);
      VisitsFitSnoc(photos, visits, v);
      CountDownloadedSnoc(visits, v);
    }

    /**
     * The body of one pass, up to the counter update: fetch a batch for the
     * chosen category and download it. A batch ends the pass cleanly only
     * when every photo was visited and the statistics summary did not fail.
     */
    method RunPass(it: Iteration) returns (e: BatchEvent)
      requires db.Valid() && EnvsFit(it)
      modifies this, db
      ensures db.Valid()
      ensures EventMatches(e, it)
      ensures old(db.images).Keys <= db.images.Keys
    {
      var fetched := GetPhotosByCategory(it.selected, it.response, it.requestIds);
      if fetched.FetchRaised? {
        e := FetchFailed;
      } else if fetched.Photos? && fetched.photos != [] {
        var k, finished, _ := ProcessBatch(fetched.photos, it.photoEnvs);
        e := Batch(k, finished && it.statsOk);
      } else {
        e := NothingFetched;
      }
    }

    /**
     * The category download loop, over a finite prefix of its passes.
     * Each pass fetches a batch for a randomly chosen category, downloads
     * it and moves the error counter as `BatchCounter.Step` says; `events`
     * records how each pass ended.
     */
    method RunCategoryBasedDownload(iterations: seq<Iteration>)
      returns (state: LoopState, events: seq<BatchEvent>)
      requires db.Valid()
      requires forall i :: 0 <= i < |iterations| ==> iterations[i].selected in Config.Categories && EnvsFit(iterations[i])
      modifies this, db
      ensures db.Valid()
      ensures |events| == |iterations|
      ensures old(db.images).Keys <= db.images.Keys
      ensures state == Run(Initial, events)
      ensures forall i :: 0 <= i < |iterations| ==> EventMatches(events[i], iterations[i])
      ensures forall i :: 0 <= i < |iterations| && CleanPass(iterations[i]) ==>
        Run(Initial, events[..i + 1]).errors == 0 && Run(Initial, events[..i + 1]).downloadedCount.Some?
      ensures forall i :: 0 <= i < |iterations| && StatsFailedPass(iterations[i]) ==>
        Run(Initial, events[..i + 1]).errors == Run(Initial, events[..i]).errors + 1
    {
      state, events := Initial, [];
      var consecutiveErrors := 0;
      var downloadedCount: Option<nat> := None;
      var cooldowns := 0;
      var n := 0;
      while n < |iterations|
        invariant 0 <= n <= |iterations| && |events| == n
        invariant db.Valid()
        invariant old(db.images).Keys <= db.images.Keys
        invariant state == LoopState(consecutiveErrors, downloadedCount, cooldowns)
        invariant state == Run(Initial, events)
        invariant forall i :: 0 <= i < n ==> EventMatches(events[i], iterations[i])
        invariant CountersFollow(iterations, events)
      {
        var e := RunPass(iterations[n]);
        match e {
          case FetchFailed =>
            consecutiveErrors := consecutiveErrors + 1;
          case Batch(k, finished) =>
            downloadedCount := Some(k);
            if finished {
              consecutiveErrors := 0;
            } else {
              // the pass raised: the catch-all handler counts it
              consecutiveErrors := consecutiveErrors + 1;
            }
          case NothingFetched =>
            consecutiveErrors := consecutiveErrors + 1;
            if consecutiveErrors >= MaxConsecutiveErrors {
              cooldowns := cooldowns + 1;
              consecutiveErrors := 0;
            }
            if downloadedCount.None? {
              // reading the unbound `downloaded_count` raises
              consecutiveErrors := consecutiveErrors + 1;
            }
        }
        RunSnoc(Initial, events, e);
        CountersFollowSnoc(iterations, events, e);
        events := events + [e];
        state := LoopState(consecutiveErrors, downloadedCount, cooldowns);
        n := n + 1;
      }
    }
  }

  /**
   * What one pass does to the counter, by what it fetched: a clean batch
   * resets it to 0 and binds `downloaded_count`, a batch whose statistics
   * summary failed adds one, and a failed fetch adds one.
   */
  lemma PassMovesCounter(s: LoopState, e: BatchEvent, it: Iteration)
    requires EnvsFit(it) && EventMatches(e, it)
    ensures CleanPass(it) ==> Step(s, e).errors == 0 && Step(s, e).downloadedCount == Some(e.downloaded)
    ensures StatsFailedPass(it) ==> Step(s, e).errors == s.errors + 1 && Step(s, e).downloadedCount == Some(e.downloaded)
    ensures FetchOf(it).FetchRaised? ==> Step(s, e) == s.(errors := s.errors + 1)
  {
  }

  /**
   * Along the first `|events|` passes, each clean pass has reset the
   * counter and each pass whose statistics failed has added one.
   */
  ghost predicate CountersFollow(its: seq<Iteration>, events: seq<BatchEvent>)
    requires |events| <= |its|
  {
    && (forall i :: 0 <= i < |events| && EnvsFit(its[i]) && CleanPass(its[i]) ==>
          Run(Initial, events[..i + 1]).errors == 0 && Run(Initial, events[..i + 1]).downloadedCount.Some?)
    && (forall i :: 0 <= i < |events| && EnvsFit(its[i]) && StatsFailedPass(its[i]) ==>
          Run(Initial, events[..i + 1]).errors == Run(Initial, events[..i]).errors + 1)
  }

  /** One more pass that matches its iteration keeps `CountersFollow`. */
  lemma CountersFollowSnoc(its: seq<Iteration>, events: seq<BatchEvent>, e: BatchEvent)
    requires |events| < |its| && CountersFollow(its, events)
    requires EnvsFit(its[|events|]) && EventMatches(e, its[|events|])
    ensures CountersFollow(its, events + [e])
  {
    var n := |events|;
    var longer := events + [e];
    forall i | 0 <= i <= n
      ensures longer[..i] == events[..i]
    {
    }
    assert longer[..n + 1] == longer;
    RunSnoc(Initial, events, e);
    PassMovesCounter(Run(Initial, events), e, its[n]);
    forall i | 0 <= i < n + 1 && EnvsFit(its[i]) && CleanPass(its[i])
      ensures Run(Initial, longer[..i + 1]).errors == 0 && Run(Initial, longer[..i + 1]).downloadedCount.Some?
    {
      if i < n {
        assert longer[..i + 1] == events[..i + 1];
      }
    }
    forall i | 0 <= i < n + 1 && EnvsFit(its[i]) && StatsFailedPass(its[i])
      ensures Run(Initial, longer[..i + 1]).errors == Run(Initial, longer[..i]).errors + 1
    {
      if i < n {
        assert longer[..i + 1] == events[..i + 1] && longer[..i] == events[..i];
      }
    }
  }

  /**
   * Which parts of the store a download touches: never the schema; on a
   * skipped photo, a photo without `urls` or a rejected save, nothing; on
   * every route but a save, no image, tag or category row; and a save
   * stores the row of the photo under the file it wrote.
   */
  lemma AfterDownloadTouches(p: Photo, env: PhotoEnv, s: Snapshot)
    requires p.id.Some?
    ensures AfterDownload(p, env, s).tables == s.tables
    ensures DownloadRoute(p, env, s) in {AlreadyStored, NoUrls, SaveRejected} ==> AfterDownload(p, env, s) == s
    ensures DownloadRoute(p, env, s) != Saved ==>
      && AfterDownload(p, env, s).images == s.images && AfterDownload(p, env, s).imageTags == s.imageTags
      && AfterDownload(p, env, s).categoryStats == s.categoryStats
    ensures DownloadRoute(p, env, s) == Saved ==>
      && p.id.value in AfterDownload(p, env, s).images
      && AfterDownload(p, env, s).images[p.id.value].filename == FileName(env.timestamp, p.id.value)
  {
  }

  /** `TagRows` over a sequence extended by one tag. */
  lemma TagRowsSnoc(id: string, tags: seq<string>, t: string)
    ensures TagRows(id, tags + [t]) == TagRows(id, tags) + [TagRow(id, t)]
  {
  }

  /**
   * `download_image` never removes a stored photo, a call that returns
   * True leaves its id stored, and a stored id is skipped without any
   * change unless the existence check itself fails.
   */
  lemma AfterDownloadKeepsIds(p: Photo, env: PhotoEnv, s: Snapshot)
    requires p.id.Some?
    ensures s.images.Keys <= AfterDownload(p, env, s).images.Keys
    ensures ResultOf(DownloadRoute(p, env, s)) == Returned(true) ==> p.id.value in AfterDownload(p, env, s).images
    ensures !env.lookupFault && p.id.value in s.images ==>
      ResultOf(DownloadRoute(p, env, s)) == Returned(false) && AfterDownload(p, env, s) == s
  {
  }
}
