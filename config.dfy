/**
 * The configuration helpers: the table of Unsplash categories, the
 * slug-to-name lookup and the validation of the settings read from the
 * environment.
 */
module Config {
  import opened Wrappers

  /** Slug and display name of the bucket for photos outside the table. */
  const OtherSlug: string := "other"
  const OtherName: string := "其他"

  /** The largest batch size the API accepts for one random-photos request. */
  const MaxBatchSize: int := 30

  /** The official Unsplash categories: slug to display name. */
  const Categories: map<string, string> := map[
    "backgrounds" := "背景",
    "fashion" := "时尚",
    "nature" := "自然",
    "science" := "科学",
    "education" := "教育",
    "feelings" := "情感",
    "health" := "健康",
    "people" := "人物",
    "religion" := "宗教",
    "places" := "地点",
    "animals" := "动物",
    "industry" := "工业",
    "computer" := "计算机",
    "food" := "食物",
    "sports" := "运动",
    "transportation" := "交通",
    "travel" := "旅行",
    "buildings" := "建筑",
    "business" := "商业",
    "music" := "音乐"
  ]

  /** The slugs of `Categories` in the order the dictionary iterates them. */
  const SlugOrder: seq<string> := [
    "backgrounds", "fashion", "nature", "science", "education",
    "feelings", "health", "people", "religion", "places",
    "animals", "industry", "computer", "food", "sports",
    "transportation", "travel", "buildings", "business", "music"
  ]

  /** The display names of `SlugOrder`, position by position. */
  const NameOrder: seq<string> := [
    "背景", "时尚", "自然", "科学", "教育",
    "情感", "健康", "人物", "宗教", "地点",
    "动物", "工业", "计算机", "食物", "运动",
    "交通", "旅行", "建筑", "商业", "音乐"
  ]

  /** The display name shown for a category: its table entry, or the slug itself when unknown. */
  function GetCategoryName(slug: string): (name: string)
    ensures slug in Categories ==> name == Categories[slug]
    ensures slug !in Categories ==> name == slug
  {
    if slug in Categories then Categories[slug] else slug
  }

  /** Why `Validate` rejects a configuration. */
  datatype ConfigError = MissingAccessKey | BatchSizeOutOfRange

  /**
   * Validation of the access key and the batch size: the key is checked
   * first, then the batch size must lie in 1..30.
   */
  function Validate(accessKey: string, batchSize: int): (r: Result<bool, ConfigError>)
    ensures r.Success? <==> accessKey != "" && 1 <= batchSize <= MaxBatchSize
    ensures r.Success? ==> r.value
    ensures accessKey == "" ==> r == Failure(MissingAccessKey)
    ensures accessKey != "" && (batchSize <= 0 || batchSize > MaxBatchSize) ==> r == Failure(BatchSizeOutOfRange)
  {
    if accessKey == "" then Failure(MissingAccessKey)
    else if batchSize <= 0 || batchSize > MaxBatchSize then Failure(BatchSizeOutOfRange)
    else Success(true)
  }

  /** `SlugOrder` lists every slug of the table once and nothing else. */
  lemma SlugOrderIsTable()
    ensures |SlugOrder| == 20
    ensures forall i, j :: 0 <= i < j < |SlugOrder| ==> SlugOrder[i] != SlugOrder[j]
    ensures forall s :: s in Categories <==> s in SlugOrder
  {
  }

  /** `NameOrder` holds the name of each slug of `SlugOrder`, at the same position. */
  lemma NameOrderMatchesTable()
    ensures |NameOrder| == |SlugOrder|
    ensures forall i :: 0 <= i < |SlugOrder| ==> Categories[SlugOrder[i]] == NameOrder[i]
  {
  }

  /**
   * The 20 display names are pairwise distinct and none of them is the
   * fallback name, so a name identifies its category (the counters are
   * keyed by name).
   */
  lemma NamesDistinct()
    ensures forall i, j :: 0 <= i < j < |NameOrder| ==> NameOrder[i] != NameOrder[j]
    ensures OtherName !in NameOrder
    ensures OtherSlug !in Categories
  {
  }

  /**
   * Two different known slugs never share a display name, and no known slug
   * is displayed as the fallback name.
   */
  lemma CategoryNamesInjective(s: string, t: string)
    requires s in Categories && t in Categories && s != t
    ensures Categories[s] != Categories[t]
    ensures Categories[s] != OtherName
  {
    SlugOrderIsTable();
    NameOrderMatchesTable();
    NamesDistinct();
    var i :| 0 <= i < |SlugOrder| && SlugOrder[i] == s;
    var j :| 0 <= j < |SlugOrder| && SlugOrder[j] == t;
    assert i != j;
    if i < j {
      assert NameOrder[i] != NameOrder[j];
    } else {
      assert NameOrder[j] != NameOrder[i];
    }
    assert NameOrder[i] in NameOrder;
  }

  /** A known slug is always translated to a different string; an unknown one is echoed. */
  lemma GetCategoryNameTranslates(slug: string)
    ensures slug in Categories <==> GetCategoryName(slug) != slug
    ensures slug in Categories ==> GetCategoryName(slug) != OtherName
  {
  }
}
