/**
 * The pure parts of the downloader: the photo records the API returns,
 * their annotation with the requested category, the tag titles that are
 * stored, the category fallback and the directory and file names.
 */
module Photos {
  import opened Wrappers
  import Config
  import Store

  /** One entry of a photo's `tags` list: only entries with a `title` are kept. */
  datatype TagEntry = TagEntry(title: Option<string>)

  /**
   * A photo object as decoded from the API's JSON. Every key may be absent
   * (`None`); `exif` and `location` hold their JSON text. The last three
   * keys are the ones the annotation step adds.
   */
  datatype Photo = Photo(
    id: Option<string>,
    description: Option<string>, altDescription: Option<string>,
    user: Option<map<string, string>>,
    urls: Option<map<string, string>>,
    width: Option<int>, height: Option<int>, color: Option<string>, likes: Option<int>,
    tags: Option<seq<TagEntry>>,
    createdAt: Option<string>, updatedAt: Option<string>,
    exif: Option<string>, location: Option<string>,
    links: Option<map<string, string>>,
    categorySlug: Option<string>, categoryName: Option<string>,
    apiRequestId: Option<string>)

  /** An element of the JSON list the API returns: an object, or any other JSON value. */
  datatype Item = PhotoObject(photo: Photo) | OtherValue

  /**
   * A decoded JSON body: a list, an object (given by its keys), a string,
   * or a number, boolean or null.
   */
  datatype Body = JsonList(items: seq<Item>) | JsonObject(keys: seq<string>) | JsonString(text: string) | JsonScalar

  /** What the random-photos request produced: a network-level exception, or a status and a body. */
  datatype ApiResponse = RequestError | Response(status: int, body: Body)

  /**
   * What `get_photos_by_category` gives its caller: the annotated list,
   * `None`, the empty object `{}` or the empty string `""` the body
   * decoded to, or an exception that escapes it.
   */
  datatype Fetched = Photos(photos: seq<Photo>) | NoResult | EmptyObject | EmptyString | FetchRaised

  /** The HTTP status the API returns on success. */
  const StatusOk: int := 200

  /** Stamps one photo with the requested slug, its display name and the request digest. */
  function Stamp(p: Photo, slug: string, requestId: string): (q: Photo)
    ensures q.categorySlug == Some(slug)
    ensures q.categoryName == Some(Config.GetCategoryName(slug))
    ensures q.apiRequestId == Some(requestId)
    ensures q.(categorySlug := p.categorySlug, categoryName := p.categoryName, apiRequestId := p.apiRequestId) == p
  {
    p.(categorySlug := Some(slug), categoryName := Some(Config.GetCategoryName(slug)), apiRequestId := Some(requestId))
  }

  /**
   * The annotation loop: stamps element `i` with `requestIds[i]` (the
   * digest is recomputed from the clock for every photo), and fails (the
   * assignment raises `TypeError`) as soon as an element is not a JSON
   * object.
   */
  function Annotate(items: seq<Item>, slug: string, requestIds: seq<string>): (r: Option<seq<Photo>>)
    requires |requestIds| == |items|
    ensures r.Some? <==> forall i :: 0 <= i < |items| ==> items[i].PhotoObject?
    ensures r.Some? ==> |r.value| == |items|
    ensures r.Some? ==> forall i :: 0 <= i < |items| ==> r.value[i] == Stamp(items[i].photo, slug, requestIds[i])
    decreases |items|
  {
    if items == [] then Some([])
    else if items[0].OtherValue? then None
    else
      match Annotate(items[1..], slug, requestIds[1..])
      case None => None
      case Some(rest) => Some([Stamp(items[0].photo, slug, requestIds[0])] + rest)
  }

  /** The response carries a list body of `n` items, or no list at all. */
  predicate ListOfSize(response: ApiResponse, n: nat) {
    response.Response? && response.body.JsonList? ==> |response.body.items| == n
  }

  /**
   * `get_photos_by_category` after the transport: a 200 response with a
   * list of objects yields every photo stamped with the requested category
   * and its own request digest; a network error or any other status yields
   * `None`. The annotation loop iterates over whatever the body decoded to:
   * it passes over `{}` and `""` untouched, and raises `TypeError` on the
   * first key of an object, the first character of a string, and on a
   * number, boolean or null, none of which it can stamp.
   */
  function GetPhotosByCategory(slug: string, response: ApiResponse, requestIds: seq<string>): (r: Fetched)
    requires ListOfSize(response, |requestIds|)
    ensures r.NoResult? <==> response.RequestError? || response.status != StatusOk
    ensures r.Photos? <==>
      && response.Response? && response.status == StatusOk && response.body.JsonList?
      && forall i :: 0 <= i < |response.body.items| ==> response.body.items[i].PhotoObject?
    ensures r.Photos? ==> |r.photos| == |response.body.items|
    ensures r.Photos? ==> forall i :: 0 <= i < |r.photos| ==>
      && r.photos[i] == Stamp(response.body.items[i].photo, slug, requestIds[i])
      && r.photos[i].categorySlug == Some(slug)
      && r.photos[i].categoryName == Some(Config.GetCategoryName(slug))
      && r.photos[i].apiRequestId == Some(requestIds[i])
      && r.photos[i].id == response.body.items[i].photo.id
      && r.photos[i].urls == response.body.items[i].photo.urls
    ensures r.EmptyObject? <==> response.Response? && response.status == StatusOk && response.body == JsonObject([])
    ensures r.EmptyString? <==> response.Response? && response.status == StatusOk && response.body == JsonString([])
  {
    match response
    case RequestError => NoResult
    case Response(status, body) =>
      if status != StatusOk then NoResult
      else
        match body
        case JsonList(items) =>
          (match Annotate(items, slug, requestIds)
           case Some(ps) => Photos(ps)
           case None => FetchRaised)
        case JsonObject(keys) => if keys == [] then EmptyObject else FetchRaised
        case JsonString(text) => if text == [] then EmptyString else FetchRaised
        case JsonScalar => FetchRaised
  }

  /** The titles of the entries that have one, in order. */
  function TagTitles(entries: seq<TagEntry>): (titles: seq<string>)
    ensures |titles| <= |entries|
    ensures (forall i :: 0 <= i < |entries| ==> entries[i].title.Some?) ==>
      |titles| == |entries| && forall i :: 0 <= i < |entries| ==> titles[i] == entries[i].title.value
    ensures forall t :: t in titles <==> exists i :: 0 <= i < |entries| && entries[i].title == Some(t)
    decreases |entries|
  {
    if entries == [] then []
    else
      var rest := TagTitles(entries[1..]);
      assert forall i :: 1 <= i < |entries| ==> entries[i] == entries[1..][i - 1];
      match entries[0].title
      case Some(t) => [t] + rest
      case None => rest
  }

  /** The tags a photo contributes: the titled entries of its `tags`, or none. */
  function PhotoTags(p: Photo): (tags: seq<string>)
    ensures p.tags.None? ==> tags == []
    ensures forall t :: t in tags <==> p.tags.Some? && exists i :: 0 <= i < |p.tags.value| && p.tags.value[i].title == Some(t)
  {
    match p.tags
    case Some(entries) => TagTitles(entries)
    case None => []
  }

  /**
   * The category a downloaded photo is filed under: its slug (default
   * `other`) and its name (default `其他`), with the name forced to `其他`
   * whenever the slug is not a known category.
   */
  function ResolveCategory(p: Photo): (c: (string, string))
    ensures c.0 == p.categorySlug.GetOr(Config.OtherSlug)
    ensures c.0 !in Config.Categories ==> c.1 == Config.OtherName
    ensures c.0 in Config.Categories ==> c.1 == p.categoryName.GetOr(Config.OtherName)
  {
    var slug := p.categorySlug.GetOr(Config.OtherSlug);
    var name := p.categoryName.GetOr(Config.OtherName);
    (slug, if slug in Config.Categories then name else Config.OtherName)
  }

  /** A filesystem path as its list of components. */
  type Path = seq<string>

  /** The directory of a category: `base/unsplash_images/<name>`. */
  function GetCategoryDirectory(base: Path, name: string): (dir: Path)
    ensures |dir| == |base| + 2 && dir[..|base|] == base
    ensures dir[|base|] == "unsplash_images" && dir[|base| + 1] == name
  {
    base + ["unsplash_images", name]
  }

  /**
   * The file name `<timestamp>_<id>.jpg`; the timestamp and the id can be
   * read back from it.
   */
  function FileName(timestamp: string, id: string): (name: string)
    ensures |name| == |timestamp| + |id| + 5
    ensures name[..|timestamp|] == timestamp && name[|timestamp|] == '_'
    ensures name[|timestamp| + 1..|timestamp| + 1 + |id|] == id
    ensures name[|timestamp| + 1 + |id|..] == ".jpg"
  {
    var name := timestamp + "_" + id + ".jpg";
    assert name[|timestamp| + 1..|timestamp| + 1 + |id|] == id;
    name
  }

  /** The `images` row `save_image_info` writes, with the defaults of `dict.get`. */
  function ImageRowFor(p: Photo, filename: string, slug: string, name: string,
                       fileSize: int, fileHash: string, now: string): (row: Store.ImageRow)
    requires p.id.Some? && p.user.Some? && p.urls.Some?
    ensures row.id == p.id.value && row.filename == filename && row.downloadTime == now
    ensures row.category == name && row.categorySlug == slug && row.tags == PhotoTags(p)
    ensures row.urlRaw == Get(p.urls.value, "raw") && row.userName == Get(p.user.value, "name")
    ensures row.apiRequestId == p.apiRequestId.GetOr("")
    ensures row.downloadStatus == "success" && row.errorMessage.None?
    ensures row.fileSize == fileSize && row.fileHash == fileHash
  {
    var user := p.user.value;
    var urls := p.urls.value;
    Store.ImageRow(
      p.id.value, filename, p.description.GetOr(""), p.altDescription.GetOr(""),
      Get(user, "name"), Get(user, "username"), Get(user, "id"),
      Get(urls, "raw"), Get(urls, "full"), Get(urls, "regular"), Get(urls, "small"), Get(urls, "thumb"),
      now, p.width.GetOr(0), p.height.GetOr(0), p.color.GetOr(""), p.likes.GetOr(0),
      PhotoTags(p), name, slug,
      p.createdAt.GetOr(""), p.updatedAt.GetOr(""), p.exif.GetOr("{}"), p.location.GetOr("{}"),
      "success", None,
      fileSize, fileHash, p.apiRequestId.GetOr(""),
      if p.links.Some? then Get(p.links.value, "html") else "")
  }

  /** `d.get(key, '')` on a JSON object of strings. */
  function Get(d: map<string, string>, key: string): string {
    if key in d then d[key] else ""
  }

  /** One entry contributes its title, or nothing when it has none. */
  lemma TagTitlesOne(e: TagEntry)
    ensures TagTitles([e]) == if e.title.Some? then [e.title.value] else []
  {
    assert [e][1..] == [];
  }

  /**
   * The titles of two lists one after the other are the titles of each,
   * one after the other: the comprehension keeps every titled entry, in
   * order, with its duplicates.
   */
  lemma {:induction false} TagTitlesAppend(a: seq<TagEntry>, b: seq<TagEntry>)
    ensures TagTitles(a + b) == TagTitles(a) + TagTitles(b)
    decreases |a|
  {
    if a == [] {
      assert a + b == b;
    } else {
      assert (a + b)[0] == a[0];
      assert (a + b)[1..] == a[1..] + b;
      TagTitlesAppend(a[1..], b);
    }
  }

  /** Two photos with the same timestamp but different ids never share a file name. */
  lemma FileNameInjective(timestamp: string, a: string, b: string)
    requires FileName(timestamp, a) == FileName(timestamp, b)
    ensures a == b
  {
    var n := FileName(timestamp, a);
    assert |a| == |b|;
    calc {
      a;
      n[|timestamp| + 1..|timestamp| + 1 + |a|];
      b;
    }
  }

  /**
   * A photo fetched for a known category is filed under exactly that
   * category: the annotation and the fallback agree.
   */
  lemma FetchedPhotosResolve(slug: string, response: ApiResponse, requestIds: seq<string>, i: nat)
    requires slug in Config.Categories && ListOfSize(response, |requestIds|)
    requires GetPhotosByCategory(slug, response, requestIds).Photos?
    requires i < |GetPhotosByCategory(slug, response, requestIds).photos|
    ensures ResolveCategory(GetPhotosByCategory(slug, response, requestIds).photos[i]) == (slug, Config.Categories[slug])
  {
  }

  /**
   * The category a photo is filed under is a known one or the fallback,
   * unless it carries a known slug with a foreign name.
   */
  lemma ResolvedNameIsStock(p: Photo)
    requires p.categorySlug.Some? ==> p.categorySlug.value in Config.Categories ==> p.categoryName == Some(Config.Categories[p.categorySlug.value])
    ensures ResolveCategory(p).1 == Config.OtherName || ResolveCategory(p).1 in Config.Categories.Values
  {
  }
}
