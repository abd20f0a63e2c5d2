# Unsplash category downloader — a Dafny model

This project models the core of a small Python service. The service
downloads random Unsplash photos by category into
`<base>/unsplash_images/<category name>/` and records each photo's
metadata in an SQLite database. It also counts downloads per category
and per day, and logs failures. The core modelled here covers three
files:

- **Configuration** (`config/config.py`): the table of 20 official categories
  from slug to Chinese display name, the slug lookup with its echo fallback,
  and the validation of the access key and batch size.
- **Downloader** (`src/unsplash_downloader.py`):
  - the photo annotation of `get_photos_by_category`;
  - the store operations `is_image_downloaded`, `save_image_info`,
    `record_failed_download` and `log_error`;
  - the decision flow of `download_image`: skip, download, save, and on
    failure log and count;
  - the `consecutive_errors` counter logic of `run_category_based_download`.
- **Database manager** (`src/db_manager.py`):
  - `init_database`, which creates and seeds the schema only when `images`
    is absent;
  - the health check over table and column names;
  - `repair_database`, which deletes the store and initialises it again.

Modules:

- `Wrappers`: `Option`, `Result`, and `Outcome`, the end of a Python call as
  a returned value or an escaping exception.
- `Config`.
- `Store`:
  - the database as a `Database` class, with one field per table plus the
    schema (table name to column names);
  - the SQL upserts as pure functions;
  - `Snapshot`, which holds the whole store as one value.
- `Photos`: the JSON photo objects, the annotation, category resolution,
  paths and file names, and the `images` row.
- `BatchCounter`: the outer loop's counter as a state machine over pass
  outcomes.
- `Downloader`: the downloader object as a class over a `Database` and a set
  of files present.
- `DbManager`.

Methods that change the store are proved against pure functions of the old
store (`db.Snap() == AfterDownload(p, env, old(db.Snap()))`). The lemmas
then state what the service promises about those functions.

The following are inputs, not computations:

- The network. `ApiResponse` is the API call's result; `Transfer` is the
  image request and the stream to disk.
- The clock. `now`, `today` and `timestamp` are strings.
- The MD5 digests, as strings: one per returned element for the request
  digest, which the code recomputes from the clock for every photo.
- The random category choice: `Iteration.selected`.
- Each SQLite error. A boolean `fault` says that the statement raises
  `sqlite3.Error`. A missing table also makes a statement fail. For
  `save_image_info`, an existing `images` table that lacks one of the 28
  columns its `INSERT` names is also one of the `saveFault` cases: the model
  decides a save by which tables exist, not by their columns.

Behaviour of the code worth knowing, which the model reproduces:

- When `save_image_info` raises instead of returning False, the downloaded
  file is not removed. A photo without `user` raises `KeyError`, which its
  `except sqlite3.Error` does not catch. `download_image`'s handler then logs
  the error and counts a failure, but leaves the file on disk
  (route `SaveRaised`).
- A photo without `urls` makes the handler itself raise, so the exception
  escapes `download_image` and ends the batch (route `NoUrls`).
- `check_database_health` with `images` missing raises `UnboundLocalError`
  instead of returning False.
- On the first passes, `downloaded_count` is unbound until a batch arrives.
  Each empty or missing result is then counted twice: once by the `else`
  branch, and once by the catch-all handler when `downloaded_count` is read.
  An exception from the fetch itself is counted once.

## Model

| member | source | states |
|---|---|---|
| Config.GetCategoryName | config/config.py:52-55 | a known slug maps to its table name; an unknown slug is returned unchanged |
| Config.GetCategoryNameTranslates | config/config.py:29-55 | a slug is known iff its name differs from it; no known slug is shown as the fallback name |
| Config.CategoryNamesInjective | config/config.py:29-50 | two different known slugs have different display names, and neither is `其他` |
| Config.SlugOrderIsTable | config/config.py:29-50 | the dictionary's iteration order lists exactly the 20 slugs of the table, each once |
| Config.NameOrderMatchesTable | config/config.py:29-50 | the display names in iteration order are the table's names of those slugs |
| Config.NamesDistinct | config/config.py:29-50 | the 20 display names are pairwise distinct; `其他` is not among them; `other` is not a slug |
| Config.Validate | config/config.py:57-66 | succeeds (returning True) iff the key is non-empty and 1 <= batch size <= 30; a missing key is reported before a bad batch size |
| Store.UpsertCategory | src/unsplash_downloader.py:383-390 | a new category row starts at count 1 with its slug; an existing one gains exactly 1 and a new time and keeps its slug; no other row changes |
| Store.UpsertDownloaded | src/unsplash_downloader.py:392-400 | the day's row gains one download and the file size; its failures are untouched; a new day starts at (1, 0, size); no other day changes |
| Store.UpsertFailed | src/unsplash_downloader.py:509-514 | the day's row gains one failure; downloads and bytes are untouched; a new day starts at (0, 1, 0) |
| Store.TagRows | src/unsplash_downloader.py:376-381 | one `(image_id, tag)` row per tag, in order |
| Store.Database.constructor | src/db_manager.py:23-25 | connecting to a database file that does not exist yet creates it with no tables and no rows |
| Store.Database.Reset | src/db_manager.py:171-174 | after the file is deleted, the store has no tables and no rows |
| Photos.Stamp | src/unsplash_downloader.py:215-219 | sets the photo's category slug, its display name and the request digest, and changes nothing else |
| Photos.Annotate | src/unsplash_downloader.py:213-220 | succeeds iff every element is a JSON object; then returns one stamped photo per element, in order, element `i` carrying its own digest `requestIds[i]` |
| Photos.GetPhotosByCategory | src/unsplash_downloader.py:198-228 | `None` iff the request failed or the status is not 200; the annotated list iff the body is a list of objects, each photo keeping its id and `urls` and carrying the requested slug, its name and its own digest; each photo is exactly the decoded object stamped with those three keys; `{}` iff the body is the empty object and `""` iff it is the empty string, both passed over untouched; otherwise (a non-object element, a non-empty object or string, a number, boolean or null) the `TypeError` escapes |
| Photos.TagTitles | src/unsplash_downloader.py:322-325 | a title is kept iff some tag entry has it; the result is never longer than the entries; when every entry is titled, it is exactly their titles in order |
| Photos.TagTitlesOne | src/unsplash_downloader.py:325 | one entry contributes its title, or nothing when it has no `title` |
| Photos.TagTitlesAppend | src/unsplash_downloader.py:325 | the titles of two lists in sequence are the titles of each in sequence, so every titled entry is kept, in order, duplicates included |
| Photos.PhotoTags | src/unsplash_downloader.py:322-325 | no `tags` key gives no tags; otherwise a tag is stored iff some entry of `tags` has it as its title |
| Photos.ImageRowFor | src/unsplash_downloader.py:338-374 | the `images` row holds the photo's id, the file name, the category name and slug, the stored tags, the raw URL and user name with "" defaults, the digest, the size and hash, and a `success` status with no error |
| Photos.ResolveCategory | src/unsplash_downloader.py:423-429 | the slug defaults to `other`; an unknown slug forces the name `其他`; a known slug keeps the photo's name (default `其他`) |
| Photos.GetCategoryDirectory | src/unsplash_downloader.py:410-412 | the directory is the base followed by `unsplash_images` and the category name |
| Photos.FileName | src/unsplash_downloader.py:463-466 | the name is `<timestamp>_<id>.jpg`, and the timestamp and the id can be read back from it |
| Photos.FileNameInjective | src/unsplash_downloader.py:463-466 | at the same timestamp, two photo ids give the same file name only if they are equal |
| Photos.FetchedPhotosResolve | src/unsplash_downloader.py:215-217 | a photo fetched for a known slug is filed under that slug and its table name |
| Photos.ResolvedNameIsStock | src/unsplash_downloader.py:423-429 | a photo whose name agrees with its known slug is filed under a table name or `其他` |
| BatchCounter.Step | src/unsplash_downloader.py:643-693 | one pass: a finished batch resets the counter to 0; a failed fetch or a raising batch adds 1; an empty fetch adds 1, cools down and resets at 5, then adds 1 more while `downloaded_count` is unbound; only a batch binds `downloaded_count` |
| BatchCounter.Run | src/unsplash_downloader.py:632-693 | over any sequence of passes, the cooldowns never decrease and grow by at most one per pass; once a batch has arrived, `downloaded_count` stays bound |
| BatchCounter.RunSnoc | src/unsplash_downloader.py:632-693 | running one more pass is one more `Step` |
| BatchCounter.FirstEmptyFetchCountsTwice | src/unsplash_downloader.py:668-678 | the very first empty fetch sets the counter to 2 |
| BatchCounter.EmptyFetchesCycle | src/unsplash_downloader.py:668-675 | once `downloaded_count` is bound, n empty fetches from e < 5 errors leave (e + n) mod 5 errors and take (e + n) div 5 cooldowns |
| BatchCounter.UnboundEmptyFetchesCycle | src/unsplash_downloader.py:668-693 | while unbound, empty fetches cycle the counter 1, 3, 5, 1 with one cooldown per cycle; two empty fetches at the start give 4 |
| BatchCounter.FailedFetchesNeverCoolDown | src/unsplash_downloader.py:690-693 | n exceptions add n to the counter and never trigger a cooldown |
| BatchCounter.UnboundUntilBatch | src/unsplash_downloader.py:645 | `downloaded_count` stays unbound until a pass returns photos |
| BatchCounter.ErrorsStayBelowThreshold | src/unsplash_downloader.py:667-675 | without exceptions, and once `downloaded_count` is bound, the counter stays in 0..4 |
| BatchCounter.FinishedBatchResets | src/unsplash_downloader.py:667 | after a finished batch the counter is 0 whatever came before, and `downloaded_count` is that batch's count |
| Downloader.AppendLog | src/unsplash_downloader.py:292-314 | the error row is appended iff the insert succeeds; otherwise the log is unchanged |
| Downloader.RecordFailure | src/unsplash_downloader.py:504-518 | the day's failure upsert happens iff the statement succeeds; otherwise the counters are unchanged |
| Downloader.ErrorRow | src/unsplash_downloader.py:488-495 | the logged row names the photo, the error type `download_error`, the message, the time, the raw URL (or "") and the traceback |
| Downloader.SaveCommits | src/unsplash_downloader.py:338-400 | a committed save replaces the photo's row, appends its tag rows after the old ones, adds one download to its category and to its day, and leaves the schema and the error log alone |
| Downloader.FailedSnapshot | src/unsplash_downloader.py:488-501 | the handler touches no image, tag or category row; the error log gains at most its one row; the daily counters change only for today |
| Downloader.DownloadRoute | src/unsplash_downloader.py:414-502 | the photo is skipped iff the existence check finds it; it raises iff it is not skipped and has no `urls`; it is saved iff it is new, has a raw URL, streams completely, has a user, and the save finds its tables (`image_tags` only when the photo has tags) and does not fail |
| Downloader.AfterDownloadTouches | src/unsplash_downloader.py:414-502 | a download never changes the schema; a skipped photo, a photo without `urls` and a rejected save change nothing; only a save changes image, tag or category rows, and it stores the photo under the file it wrote |
| Downloader.RouteOf | src/unsplash_downloader.py:414-502 | the photo is skipped iff it is already stored; it is saved iff it is new, has a raw URL, streams completely, has a user and the save statements succeed |
| Downloader.ResultOf | src/unsplash_downloader.py:478-502 | True iff the photo was saved; the call raises iff the photo has no `urls` |
| Downloader.FilesAfter | src/unsplash_downloader.py:466-486 | a partial, unsaved or saved download leaves the file; a rejected save removes it; the other routes write nothing |
| Downloader.CountDownloaded | src/unsplash_downloader.py:645-651 | the number of True results is at most the number of photos visited |
| Downloader.CountDownloadedSnoc | src/unsplash_downloader.py:648-651 | visiting one more photo adds 1 exactly when it returned True |
| Downloader.Downloader.constructor | src/unsplash_downloader.py:16-34 | the downloader works on the given database, base directory and files |
| Downloader.Downloader.TargetPath | src/unsplash_downloader.py:423-466 | the file lies in the resolved category's directory and is named `<timestamp>_<id>.jpg` |
| Downloader.Downloader.IsImageDownloaded | src/unsplash_downloader.py:240-251 | true iff `images` holds the id; a store error reads as false |
| Downloader.TagTableOnlyForTags | src/unsplash_downloader.py:376-381 | `SaveTablesReady` asks for `image_tags` only when there is a tag to insert: for a photo without tags, readiness and the whole route are the same with or without that table |
| Downloader.Downloader.AppendTagRows | src/unsplash_downloader.py:376-381 | appends one tag row per title, in order, and changes no other table; with no tags it needs no `image_tags` table |
| Downloader.Downloader.SaveImageInfo | src/unsplash_downloader.py:316-408 | raises without a `user` or `urls`; otherwise returns True iff no statement fails, where a tagless photo runs no `image_tags` statement; on True it replaces the `images` row, appends the tag rows and applies both upserts; otherwise the store is unchanged |
| Downloader.Downloader.RecordFailedDownload | src/unsplash_downloader.py:504-518 | the store changes by the day's failure upsert when it succeeds, and by nothing else |
| Downloader.Downloader.LogError | src/unsplash_downloader.py:292-314 | the store changes by one appended error row when the insert succeeds, and by nothing else |
| Downloader.Downloader.HandleDownloadError | src/unsplash_downloader.py:488-502 | the handler logs one `download_error` row with the raw URL (or "") and counts one failure, each only if its statement succeeds |
| Downloader.Downloader.DownloadImage | src/unsplash_downloader.py:414-502 | the result, the files present and the new store are those of the route the photo takes against the old store |
| Downloader.Downloader.WriteAndSave | src/unsplash_downloader.py:463-486 | once the request succeeded for a new photo, the result, the files and the store are those of its route |
| Downloader.AfterDownloadKeepsIds | src/unsplash_downloader.py:418-420 | a download never removes a stored photo; a True result leaves the id stored; a stored id is skipped with no change unless the existence check fails |
| Downloader.Downloader.VisitPhoto | src/unsplash_downloader.py:648-651 | a dict without `id` is passed over, leaving store and files as they were; any other photo goes through `download_image`, with its result, store and files exactly those of `DownloadRoute`, `AfterDownload` and `FilesAfter`; stored ids are kept; a stored photo is not downloaded again |
| Downloader.Downloader.BatchStep | src/unsplash_downloader.py:648-651 | one turn of the batch loop extends the visit/photo correspondence, the no-redownload property, the True count, the stored ids and the file locations by one visit |
| Downloader.Downloader.ProcessBatch | src/unsplash_downloader.py:645-651 | visits the photos in order until one raises, and only a photo with an id but no `urls` raises; if every photo has `urls` the batch finishes; counts the True results; keeps every stored id; a photo downloaded earlier in the batch is skipped when it comes again; every file added or removed lies in a category directory |
| Downloader.VisitsFitSnoc | src/unsplash_downloader.py:648-651 | one more visit after a prefix that did not raise keeps the position-by-position link between visits and photos |
| Downloader.NoRedownloadSnoc | src/unsplash_downloader.py:648-651 | a visit that skips every id downloaded before it keeps the no-second-download property of the batch |
| Downloader.Downloader.RunPass | src/unsplash_downloader.py:634-665 | classifies the pass: an escaping fetch error, an empty or missing result, or a batch with at most as many downloads as photos that finishes only if the statistics summary worked, always finishes when moreover every photo has `urls`, and otherwise raised on a photo with an id and no `urls`; every id stored before the pass is still stored after it |
| Downloader.Downloader.RunCategoryBasedDownload | src/unsplash_downloader.py:621-693 | after any number of passes, the counter state equals `Run` of the passes' outcomes from the initial state; each outcome matches its iteration; after every clean pass the counter is 0 and `downloaded_count` is bound; a pass whose statistics summary failed adds exactly one; an id stored before the loop is still stored after any number of passes, so the per-call skip keeps it from being downloaded again |
| Downloader.PassMovesCounter | src/unsplash_downloader.py:643-693 | a clean pass resets the counter and binds `downloaded_count`; a batch whose statistics fail adds one; a failed fetch adds one and changes nothing else |
| Downloader.CountersFollowSnoc | src/unsplash_downloader.py:632-693 | one more pass that matches its iteration keeps the reset and add-one facts for every earlier pass |
| DbManager.CreateIfMissing | src/db_manager.py:36-131 | every listed table exists afterwards; existing tables keep their columns; no other table appears; a missing first table gets its listed columns |
| DbManager.CreatedColumns | src/db_manager.py:36-131 | a table that was missing gets the columns of the first statement that names it |
| DbManager.SchemaColumns | src/db_manager.py:36-131 | each of the six tables that was missing gets exactly the columns its own `CREATE TABLE` lists |
| DbManager.SeedOne | src/db_manager.py:136-145 | `INSERT OR IGNORE`: a name already present keeps its row; a new name gets a zero row with the slug |
| DbManager.SeedCategories | src/db_manager.py:135-139 | existing rows are kept; every item's name is present; no other name appears; every new row has count 0 and the seeding time |
| DbManager.SeededSlug | src/db_manager.py:135-139 | a name that no other item shares, and that was absent before, gets exactly its own slug with count 0 |
| DbManager.SeedCategoriesSnoc | src/db_manager.py:135-139 | seeding one more item is one more `INSERT OR IGNORE` |
| DbManager.SeededShape | src/db_manager.py:134-145 | both seeding steps keep every existing row, add a row for each of the 20 display names and for `其他`, add nothing else, and add only zero rows stamped with the seeding time |
| DbManager.InitEffectKeeps | src/db_manager.py:19-157 | a successful `init_database` always leaves `images`; existing tables and category rows are kept; the other tables' rows are untouched; it changes something only when it succeeds without `images` |
| DbManager.Healthy | src/db_manager.py:195-215 | the store is healthy iff all six tables exist and the comprehension of missing `images` columns is empty |
| DbManager.Absent | src/db_manager.py:207-209 | a name is reported missing iff it is required and not among the columns |
| DbManager.DbManager.constructor | src/db_manager.py:15-17 | a new manager runs `init_database` on its store |
| DbManager.DbManager.InitDatabase | src/db_manager.py:19-157 | returns False iff a store error occurs; creates and seeds only when `images` is absent, and otherwise changes nothing |
| DbManager.DbManager.CreateAndSeed | src/db_manager.py:36-145 | runs the six `CREATE TABLE` statements, then the seeding, and changes no other table |
| DbManager.DbManager.SeedCategoryStats | src/db_manager.py:135-139 | the seeding loop inserts the items in order and changes no other table |
| DbManager.DbManager.CheckDatabaseHealth | src/db_manager.py:189-228 | False on a store error; raises when `images` is missing; otherwise True iff all six tables and the columns id, filename, category and download_time exist |
| DbManager.DbManager.RepairDatabase | src/db_manager.py:159-187 | a file error returns False and changes nothing; otherwise the result is `init_database`'s on the emptied store |
| DbManager.InitIdempotent | src/db_manager.py:29-32 | a second `init_database` after a successful one changes nothing |
| DbManager.InitKeepsCategoryRows | src/db_manager.py:134-145 | a category row that existed before initialisation keeps its count, slug and time |
| DbManager.FreshSeed | src/db_manager.py:134-145 | initialising a store with no `images` and no category rows gives exactly one zero row per known category, under its name and with its slug, plus the `其他`/`other` row |
| DbManager.FreshSeedRows | src/db_manager.py:135-139 | each known category gets a zero row with its own slug |
| DbManager.FreshSeedOther | src/db_manager.py:142-145 | the fallback gets the row `(其他, other, 0)` |
| DbManager.FreshSeedKeys | src/db_manager.py:134-145 | no names other than the 20 known names and `其他` are seeded |
| DbManager.SeededKnown | src/db_manager.py:135-139 | a known slug's seeded row carries that slug and count 0, and its name is not `其他` |
| DbManager.SeededNamesKnown | src/db_manager.py:135-139 | the category seed holds only table names, never `其他` |
| DbManager.CreatesHealthTables | src/db_manager.py:36-131 | the `CREATE` statements create every table the health check asks for |
| DbManager.InitMakesHealthy | src/db_manager.py:19-228 | initialising a store without `images` makes the health check pass |
| DbManager.HealthyIsInitialised | src/db_manager.py:29-32 | `init_database` leaves a healthy store unchanged |
| DbManager.RepairedStore | src/db_manager.py:159-183 | after a successful repair the store is healthy and holds no images, tags, errors or daily counters; every seeded category has count 0 |
| DbManager.FetchedCategoryIsSeeded | src/db_manager.py:134-145 | a photo fetched for a known category is filed under a name that the fresh seed created, with that slug and count 0 |
| DbManager.HealthyCanSave | src/db_manager.py:196-217 | a healthy store has every table `save_image_info` writes |

## Left out

- HTTP transport, timeouts, `raise_for_status` and response times.
  `ApiResponse` and `Transfer` are supplied values, and the body arrives
  already decoded; a body that is not JSON at all is not modelled.
- `record_download_url` and the `download_urls` rows it writes. The URL log
  catches its own errors and does not affect the flow. The table is still
  created and checked.
- `time.sleep`, the cooldown's 600 seconds, the 300-second pause and
  `KeyboardInterrupt`. The loop runs over a finite sequence of passes.
  `cooldowns` counts the pauses.
- `random.choice` of the category and of the orientation. The category is an
  input.
- MD5 of the file and of the request digests. Both are inputs.
- The downloader's own `init_database` and `create_category_directories`
  (src/unsplash_downloader.py:52-196), and the `mkdir`/`chmod` calls in
  `init_database`. The model assumes the category directories exist.
- Reporting: `get_download_stats` beyond whether it fails,
  `print_category_summary`, and all of `show_*`, `list_categories`,
  `search_images` and `main`.
- Logging and `print`.
- Downloader.Downloader.SaveImageInfo: `datetime.now()` is read once per
  save, not once per statement.
- DbManager.DbManager.InitDatabase: `datetime.now()` is read once for all
  seed rows, not once per insert.
- DbManager.DbManager.InitDatabase: a store error here is all-or-nothing.
  sqlite3's autocommit of `CREATE TABLE` inside a failing initialisation is
  not modelled.
- The `images` row is kept as a record. The column-level mapping of the SQL
  statement (`json.dumps` of tags, EXIF and location) is reduced to strings.
- DbManager.DbManager.RepairDatabase: the backup copy is left out, because
  the file system is not modelled. A failure of the copy or of the delete
  is the `fileFault` input.
- Downloader.Downloader.RunPass: the per-photo sleeps and the statistics
  query are reduced to one `statsOk` flag per pass. When `get_download_stats`
  fails it returns `{}`, and the next `stats[...]` read raises.
- Downloader.Downloader.ProcessBatch: about the store it states only which
  `images` keys are present, and about the files only that every file added
  or removed lies in a category directory. The exact effect of each call is
  in `VisitPhoto`'s and `DownloadImage`'s contracts; their composition over
  a batch is not stated.
- Downloader.Downloader.RunPass: whether a batch raised also depends on the
  store (a stored photo without `urls` is skipped, not raised on), so a
  batch with a photo lacking `urls` is stated to finish or raise only up to
  that choice.
