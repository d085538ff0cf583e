// The feed item as it travels through retrieval, reranking, diversification
// and explanation: a Python dict whose optional keys are `Option` fields here.
module FeedTypes {
  import opened Wrappers

  /** `(category or "", subcategory or "")`, the key of an interest node. */
  type NodeKey = (string, string)

  /** The score breakdown the diversifier copies into each selected item. */
  datatype Breakdown = Breakdown(
    relScore: real,
    topBonus: real,
    redundancyPenalty: real,
    coverageGain: real,
    totalScore: real)

  /** Counters of one interest node, as an explanation quotes them. */
  datatype NodeStats = NodeStats(clicks: int, exposures: int, underexploredScore: real)

  /** `{"news_id": ..., "title": ...}` of a recent click. */
  datatype RecentClick = RecentClick(newsId: string, title: Option<string>)

  /** The reason tags an explanation can carry. */
  datatype ReasonTag =
    | RelevantToYou          // "relevant_to_you"
    | UnderexploredInterest  // "underexplored_interest"
    | AddsTopicVariety       // "adds_topic_variety"
    | ReducesRepetition      // "reduces_repetition"
    | PopularFallback        // "popular_fallback"

  /** The `explanation` dict attached to each explained item. */
  datatype Explanation = Explanation(
    topPath: Option<string>,
    reasonTags: seq<ReasonTag>,
    relScoreNorm: real,
    topBonusNorm: real,
    redundancyPenaltyNorm: real,
    coverageGainNorm: real,
    totalScore: real,
    recentClicksUsed: seq<RecentClick>,
    topNodeStats: Option<NodeStats>,
    retrievalMethod: string)

  /** A candidate or feed item. `breakdown`, `topPath` and `explanation` are
      the keys added by the diversifier and the explanation builder;
      `selected` is the `_selected` mark the diversifier leaves on its input;
      `isPreferred` is true when `is_preferred` has been set. */
  datatype Item = Item(
    newsId: string,
    title: Option<string>,
    abstractText: Option<string>,
    category: Option<string>,
    subcategory: Option<string>,
    url: Option<string>,
    score: real,
    breakdown: Option<Breakdown>,
    topPath: Option<string>,
    selected: bool,
    isPreferred: bool,
    explanation: Option<Explanation>)

  /** An item as a database query returns it: none of the added keys. */
  function Fetched(newsId: string, title: Option<string>, abstractText: Option<string>,
                   category: Option<string>, subcategory: Option<string>,
                   url: Option<string>, score: real): Item
  {
    Item(newsId, title, abstractText, category, subcategory, url, score, None, None, false, false, None)
  }

  /** `x or ""` for an optional string. */
  function OrEmpty(o: Option<string>): string
  {
    match o
    case Some(s) => s
    case None => ""
  }

  /** Python truthiness of an optional string. */
  predicate Truthy(o: Option<string>)
  {
    o.Some? && o.value != ""
  }

  /** `f"{x}"` for an optional string. */
  function PyStr(o: Option<string>): string
  {
    match o
    case Some(s) => s
    case None => "None"
  }

  /** `f"{category}/{subcategory}" if subcategory else category` */
  function PathOf(category: Option<string>, subcategory: Option<string>): Option<string>
  {
    if Truthy(subcategory) then Some(PyStr(category) + "/" + subcategory.value) else category
  }

  /** The news ids of a list of items, in order. */
  function Ids(items: seq<Item>): (ids: seq<string>)
    ensures |ids| == |items| && forall i :: 0 <= i < |items| ==> ids[i] == items[i].newsId
  {
    seq(|items|, i requires 0 <= i < |items| => items[i].newsId)
  }

  /** The distinct truthy values among `os`: `set(x for x in os if x)`. */
  function DistinctTruthy(os: seq<Option<string>>): (s: set<string>)
    ensures forall x :: x in s <==> exists i :: 0 <= i < |os| && Truthy(os[i]) && os[i].value == x
  {
    set i | 0 <= i < |os| && Truthy(os[i]) :: os[i].value
  }

  /** There are at most as many distinct truthy values as entries. */
  lemma {:induction false} DistinctTruthyBound(os: seq<Option<string>>)
    ensures |DistinctTruthy(os)| <= |os|
  {
    if os != [] {
      var n := |os| - 1;
      DistinctTruthyBound(os[..n]);
      var prev := DistinctTruthy(os[..n]);
      var last: set<string> := if Truthy(os[n]) then {os[n].value} else {};
      assert DistinctTruthy(os) <= prev + last by {
        forall x | x in DistinctTruthy(os) ensures x in prev + last {
          var i :| 0 <= i < |os| && Truthy(os[i]) && os[i].value == x;
          if i < n {
            assert os[..n][i] == os[i];
          }
        }
      }
      SubsetCard(DistinctTruthy(os), prev + last);
    }
  }

  lemma {:induction false} SubsetCard<T>(a: set<T>, b: set<T>)
    requires a <= b
    ensures |a| <= |b|
    decreases |a|
  {
    if a != {} {
      var x :| x in a;
      SubsetCard(a - {x}, b - {x});
    }
  }

  function Categories(items: seq<Item>): (os: seq<Option<string>>)
    ensures |os| == |items| && forall i :: 0 <= i < |items| ==> os[i] == items[i].category
  {
    seq(|items|, i requires 0 <= i < |items| => items[i].category)
  }

  function Subcategories(items: seq<Item>): (os: seq<Option<string>>)
    ensures |os| == |items| && forall i :: 0 <= i < |items| ==> os[i] == items[i].subcategory
  {
    seq(|items|, i requires 0 <= i < |items| => items[i].subcategory)
  }
}
