// The feed-response metrics of apps/backend/app/observability/metrics.py:
// `_safe_mean`, the per-response summary (distinct categories and
// subcategories, repetition rate, average top bonus and redundancy penalty)
// and `observe_feed_response`, which bumps the request and diversification
// counters and records the summary's observations. The Prometheus metric
// objects are a registry of counters and a log of observed values.
module Observability {
  import opened Wrappers
  import opened Numeric
  import opened FeedTypes

  // ---------------------------------------------------------------------
  // _safe_mean
  // ---------------------------------------------------------------------

  /** `[value for value in values if value is not None]` */
  function Present(values: seq<Option<real>>): (p: seq<real>)
    ensures |p| <= |values|
    ensures p == [] <==> forall i :: 0 <= i < |values| ==> values[i].None?
  {
    if values == [] then []
    else
      var prev := Present(values[..|values| - 1]);
      assert forall i :: 0 <= i < |values| - 1 ==> values[..|values| - 1][i] == values[i];
      match values[|values| - 1]
      case Some(v) => prev + [v]
      case None => prev
  }

  /** `_safe_mean`: `None` when no value is present, else the arithmetic
      mean of the present ones. */
  function SafeMean(values: seq<Option<real>>): (r: Option<real>)
    ensures r.None? <==> forall i :: 0 <= i < |values| ==> values[i].None?
    ensures r.Some? ==> r.value * (|Present(values)| as real) == Sum(Present(values))
  {
    var p := Present(values);
    if p == [] then None else Some(Sum(p) / (|p| as real))
  }

  /** Each present value is one of the inputs. */
  lemma {:induction false} PresentFrom(values: seq<Option<real>>)
    ensures forall j :: 0 <= j < |Present(values)| ==> Some(Present(values)[j]) in values
  {
    if values != [] {
      var q := values[..|values| - 1];
      PresentFrom(q);
      assert forall x :: x in q ==> x in values;
    }
  }

  /** A sum of `n` values within `[lo, hi]` lies within `[n·lo, n·hi]`. */
  lemma {:induction false} SumWithin(s: seq<real>, lo: real, hi: real)
    requires forall j :: 0 <= j < |s| ==> lo <= s[j] <= hi
    ensures (|s| as real) * lo <= Sum(s) <= (|s| as real) * hi
  {
    if s != [] {
      SumWithin(s[..|s| - 1], lo, hi);
    }
  }

  /** The mean of values within `[lo, hi]` is within `[lo, hi]`. */
  lemma SafeMeanWithin(values: seq<Option<real>>, lo: real, hi: real)
    requires forall i :: 0 <= i < |values| && values[i].Some? ==> lo <= values[i].value <= hi
    ensures SafeMean(values).Some? ==> lo <= SafeMean(values).value <= hi
  {
    var p := Present(values);
    PresentFrom(values);
    forall j | 0 <= j < |p| ensures lo <= p[j] <= hi {
      var i :| 0 <= i < |values| && values[i] == Some(p[j]);
    }
    SumWithin(p, lo, hi);
    if p != [] {
      QuotientWithin(Sum(p), |p| as real, lo, hi);
    }
  }

  // ---------------------------------------------------------------------
  // The summary of one feed response
  // ---------------------------------------------------------------------

  /** The keys of a returned item that the summary reads. */
  datatype ResponseItem = ResponseItem(
    category: Option<string>, subcategory: Option<string>,
    topBonus: Option<real>, redundancyPenalty: Option<real>)

  function CategoriesOf(items: seq<ResponseItem>): (os: seq<Option<string>>)
    ensures |os| == |items| && forall i :: 0 <= i < |items| ==> os[i] == items[i].category
  {
    seq(|items|, i requires 0 <= i < |items| => items[i].category)
  }

  function SubcategoriesOf(items: seq<ResponseItem>): (os: seq<Option<string>>)
    ensures |os| == |items| && forall i :: 0 <= i < |items| ==> os[i] == items[i].subcategory
  {
    seq(|items|, i requires 0 <= i < |items| => items[i].subcategory)
  }

  function TopBonuses(items: seq<ResponseItem>): (vs: seq<Option<real>>)
    ensures |vs| == |items| && forall i :: 0 <= i < |items| ==> vs[i] == items[i].topBonus
  {
    seq(|items|, i requires 0 <= i < |items| => items[i].topBonus)
  }

  function RedundancyPenalties(items: seq<ResponseItem>): (vs: seq<Option<real>>)
    ensures |vs| == |items| && forall i :: 0 <= i < |items| ==> vs[i] == items[i].redundancyPenalty
  {
    seq(|items|, i requires 0 <= i < |items| => items[i].redundancyPenalty)
  }

  datatype FeedSummary = FeedSummary(
    uniqueCategories: nat, uniqueSubcategories: nat, repetitionRate: real,
    avgTopBonus: Option<real>, avgRedundancyPenalty: Option<real>)

  /** A rate `r` over `k` items of which `unique` are distinct is the share
      of the items beyond the distinct ones. */
  predicate RepeatedShare(r: real, unique: int, k: int)
  {
    k > 0 ==> r * (k as real) == (k - unique) as real
  }

  /** `1 - unique/len(items)`, or 0 for an empty response. */
  function RepetitionRate(unique: nat, k: nat): (r: real)
    requires unique <= k
    ensures 0.0 <= r <= 1.0
    ensures k == 0 ==> r == 0.0
    ensures k > 0 ==> r * (k as real) == (k - unique) as real
    ensures k > 0 && unique == k ==> r == 0.0
  {
    if k > 0 then 1.0 - (unique as real) / (k as real) else 0.0
  }

  /** The values `observe_feed_response` computes from the items. */
  function Summarize(items: seq<ResponseItem>): (s: FeedSummary)
    ensures s.uniqueCategories <= |items| && s.uniqueSubcategories <= |items|
    ensures 0.0 <= s.repetitionRate <= 1.0
    ensures items == [] ==> s.repetitionRate == 0.0
    ensures s.avgTopBonus.None? <==> forall i :: 0 <= i < |items| ==> items[i].topBonus.None?
    ensures s.avgRedundancyPenalty.None? <==> forall i :: 0 <= i < |items| ==> items[i].redundancyPenalty.None?
  {
    var categories := DistinctTruthy(CategoriesOf(items));
    var subcategories := DistinctTruthy(SubcategoriesOf(items));
    DistinctTruthyBound(CategoriesOf(items));
    DistinctTruthyBound(SubcategoriesOf(items));
    FeedSummary(
      |categories|, |subcategories|,
      RepetitionRate(|subcategories|, |items|),
      SafeMean(TopBonuses(items)),
      SafeMean(RedundancyPenalties(items)))
  }

  /** What the summary holds: the numbers of distinct truthy categories and
      subcategories, the share of items beyond one per subcategory, and the
      means of the present top bonuses and redundancy penalties. */
  lemma SummarizeValues(items: seq<ResponseItem>)
    ensures var s := Summarize(items);
      && s.uniqueCategories == |DistinctTruthy(CategoriesOf(items))|
      && s.uniqueSubcategories == |DistinctTruthy(SubcategoriesOf(items))|
      && (|items| > 0 ==> s.repetitionRate * (|items| as real) == (|items| - s.uniqueSubcategories) as real)
      && s.avgTopBonus == SafeMean(TopBonuses(items))
      && s.avgRedundancyPenalty == SafeMean(RedundancyPenalties(items))
  {
    SummarizeCounts(items);
    SummarizeRepetition(items);
    SummarizeMeans(items);
  }

  /** The unique counts of the summary. */
  lemma SummarizeCounts(items: seq<ResponseItem>)
    ensures Summarize(items).uniqueCategories == |DistinctTruthy(CategoriesOf(items))|
    ensures Summarize(items).uniqueSubcategories == |DistinctTruthy(SubcategoriesOf(items))|
  {
    SummarizeFields(items);
  }

  /** The repetition rate of the summary, as a share of the items. */
  lemma SummarizeRepetition(items: seq<ResponseItem>)
    ensures RepeatedShare(Summarize(items).repetitionRate, Summarize(items).uniqueSubcategories, |items|)
  {
    SummarizeRate(items);
    RateOfSummary(Summarize(items), |items|);
  }

  /** The summary's rate is `RepetitionRate` of its subcategory count. */
  lemma SummarizeRate(items: seq<ResponseItem>)
    ensures Summarize(items).uniqueSubcategories <= |items|
    ensures Summarize(items).repetitionRate == RepetitionRate(Summarize(items).uniqueSubcategories, |items|)
  {
    SummarizeFields(items);
  }

  /** The two averages of the summary. */
  lemma SummarizeMeans(items: seq<ResponseItem>)
    ensures Summarize(items).avgTopBonus == SafeMean(TopBonuses(items))
    ensures Summarize(items).avgRedundancyPenalty == SafeMean(RedundancyPenalties(items))
  {
  }

  /** The summary's fields, each named by the function that computes it. */
  lemma SummarizeFields(items: seq<ResponseItem>)
    ensures |DistinctTruthy(SubcategoriesOf(items))| <= |items|
    ensures var u := |DistinctTruthy(SubcategoriesOf(items))|;
      Summarize(items) == FeedSummary(|DistinctTruthy(CategoriesOf(items))|, u, RepetitionRate(u, |items|),
                                      SafeMean(TopBonuses(items)), SafeMean(RedundancyPenalties(items)))
  {
    DistinctTruthyBound(SubcategoriesOf(items));
  }

  /** A summary whose rate is `RepetitionRate` of its own counts. */
  lemma RateOfSummary(s: FeedSummary, k: nat)
    requires s.uniqueSubcategories <= k
    requires s.repetitionRate == RepetitionRate(s.uniqueSubcategories, k)
    ensures RepeatedShare(s.repetitionRate, s.uniqueSubcategories, k)
  {
  }

  /** Items from distinct truthy subcategories repeat nothing. */
  lemma NoRepetition(items: seq<ResponseItem>)
    requires forall i :: 0 <= i < |items| ==> Truthy(items[i].subcategory)
    requires forall i, j :: 0 <= i < j < |items| ==> items[i].subcategory != items[j].subcategory
    ensures Summarize(items).uniqueSubcategories == |items|
    ensures Summarize(items).repetitionRate == 0.0
  {
    DistinctTruthyExact(SubcategoriesOf(items));
  }

  /** Distinct truthy entries are counted once each. */
  lemma {:induction false} DistinctTruthyExact(os: seq<Option<string>>)
    requires forall i :: 0 <= i < |os| ==> Truthy(os[i])
    requires forall i, j :: 0 <= i < j < |os| ==> os[i] != os[j]
    ensures |DistinctTruthy(os)| == |os|
  {
    if os != [] {
      var n := |os| - 1;
      var q := os[..n];
      DistinctTruthyExact(q);
      assert DistinctTruthy(os) == DistinctTruthy(q) + {os[n].value} by {
        forall x | x in DistinctTruthy(os) ensures x in DistinctTruthy(q) + {os[n].value} {
          var i :| 0 <= i < |os| && Truthy(os[i]) && os[i].value == x;
          if i < n {
            assert q[i] == os[i];
          }
        }
        assert forall i :: 0 <= i < n ==> q[i] == os[i];
      }
      forall i | 0 <= i < n
        ensures q[i].value != os[n].value
      {
        assert q[i] == os[i];
      }
    }
  }

  // ---------------------------------------------------------------------
  // observe_feed_response
  // ---------------------------------------------------------------------

  /** The summaries and histograms a feed response is observed in. */
  datatype Series =
    | FeedLatency
    | ItemsReturned
    | ExploreLevel
    | UniqueCategories
    | UniqueSubcategories
    | Repetition
    | AvgTopBonus
    | AvgRedundancyPenalty

  datatype Observation = Observation(series: Series, variant: string, value: real)

  /** The observations made from the summary, in order; the two averages
      only when they exist. */
  function SummaryObservations(variant: string, s: FeedSummary): (obs: seq<Observation>)
    ensures 3 <= |obs| <= 5
    ensures (exists o :: o in obs && o.series == AvgTopBonus) <==> s.avgTopBonus.Some?
    ensures (exists o :: o in obs && o.series == AvgRedundancyPenalty) <==> s.avgRedundancyPenalty.Some?
  {
    var base := [Observation(UniqueCategories, variant, s.uniqueCategories as real),
                 Observation(UniqueSubcategories, variant, s.uniqueSubcategories as real),
                 Observation(Repetition, variant, s.repetitionRate)];
    var top := if s.avgTopBonus.Some? then [Observation(AvgTopBonus, variant, s.avgTopBonus.value)] else [];
    var red := if s.avgRedundancyPenalty.Some? then [Observation(AvgRedundancyPenalty, variant, s.avgRedundancyPenalty.value)] else [];
    assert forall o :: o in base + top + red ==> o in base || o in top || o in red;
    base + top + red
  }

  /** The observations of one response, in the order they are made. */
  function ResponseObservations(variant: string, latencySeconds: real, items: seq<ResponseItem>,
                                exploreLevel: Option<real>): (obs: seq<Observation>)
    ensures 6 <= |obs| <= 8
  {
    [Observation(FeedLatency, variant, latencySeconds),
     Observation(ItemsReturned, variant, |items| as real),
     Observation(ExploreLevel, variant, exploreLevel.GetOr(0.0))]
    + SummaryObservations(variant, Summarize(items))
  }

  /** The top-bonus average is observed exactly when some item carries a
      top bonus, and likewise for the redundancy penalty; every
      observation is labelled with the response's variant. */
  lemma AveragesObservedIff(variant: string, latencySeconds: real, items: seq<ResponseItem>,
                            exploreLevel: Option<real>)
    ensures (exists o :: o in ResponseObservations(variant, latencySeconds, items, exploreLevel) && o.series == AvgTopBonus)
            <==> exists i :: 0 <= i < |items| && items[i].topBonus.Some?
    ensures (exists o :: o in ResponseObservations(variant, latencySeconds, items, exploreLevel) && o.series == AvgRedundancyPenalty)
            <==> exists i :: 0 <= i < |items| && items[i].redundancyPenalty.Some?
  {
    ObservedInSummary(variant, latencySeconds, items, exploreLevel, AvgTopBonus);
    ObservedInSummary(variant, latencySeconds, items, exploreLevel, AvgRedundancyPenalty);
  }

  /** A summary series is observed in the response exactly when the
      summary's own observations include it. */
  lemma ObservedInSummary(variant: string, latencySeconds: real, items: seq<ResponseItem>,
                          exploreLevel: Option<real>, series: Series)
    requires series != FeedLatency && series != ItemsReturned && series != ExploreLevel
    ensures (exists o :: o in ResponseObservations(variant, latencySeconds, items, exploreLevel) && o.series == series)
            <==> exists o :: o in SummaryObservations(variant, Summarize(items)) && o.series == series
  {
    var head := [Observation(FeedLatency, variant, latencySeconds),
                 Observation(ItemsReturned, variant, |items| as real),
                 Observation(ExploreLevel, variant, exploreLevel.GetOr(0.0))];
    var tail := SummaryObservations(variant, Summarize(items));
    var all := ResponseObservations(variant, latencySeconds, items, exploreLevel);
    assert all == head + tail;
    if o :| o in all && o.series == series {
      assert o !in head;
      assert o in tail;
    }
    if o :| o in tail && o.series == series {
      assert o in all;
    }
  }

  /** `counter.labels(key).inc()` on a map of counts. */
  function Inc<K>(m: map<K, nat>, key: K): (m': map<K, nat>)
    ensures m'.Keys == m.Keys + {key}
    ensures m'[key] == (if key in m then m[key] else 0) + 1
    ensures forall k :: k in m && k != key ==> m'[k] == m[k]
  {
    m[key := (if key in m then m[key] else 0) + 1]
  }

  /** The feed metrics: the request counter by (feedMethod, variant), the
      diversification counter by variant, and every value observed. */
  class FeedMetrics {
    var feedRequests: map<(string, string), nat>
    var diversifyEnabled: map<string, nat>
    var observations: seq<Observation>

    constructor()
      ensures feedRequests == map[] && diversifyEnabled == map[] && observations == []
    {
      feedRequests, diversifyEnabled, observations := map[], map[], [];
    }

    /** `.observe(value)` on each series of `batch`, in order. */
    method Record(batch: seq<Observation>)
      modifies this
      ensures observations == old(observations) + batch
      ensures feedRequests == old(feedRequests) && diversifyEnabled == old(diversifyEnabled)
    {
      observations := observations + batch;
    }

    /** `FEED_REQUESTS.labels(method, variant).inc()` */
    method CountRequest(feedMethod: string, variant: string)
      modifies this
      ensures feedRequests == Inc(old(feedRequests), (feedMethod, variant))
      ensures diversifyEnabled == old(diversifyEnabled) && observations == old(observations)
    {
      feedRequests := Inc(feedRequests, (feedMethod, variant));
    }

    /** `FEED_DIVERSIFY_ENABLED.labels(variant).inc()` */
    method CountDiversified(variant: string)
      modifies this
      ensures diversifyEnabled == Inc(old(diversifyEnabled), variant)
      ensures feedRequests == old(feedRequests) && observations == old(observations)
    {
      diversifyEnabled := Inc(diversifyEnabled, variant);
    }

    /** `observe_feed_response` */
    method ObserveFeedResponse(variant: string, feedMethod: string, latencySeconds: real,
                               items: seq<ResponseItem>, diversify: bool, exploreLevel: Option<real>)
      modifies this
      ensures feedRequests == Inc(old(feedRequests), (feedMethod, variant))
      ensures diversifyEnabled == if diversify then Inc(old(diversifyEnabled), variant) else old(diversifyEnabled)
      ensures observations == old(observations) + ResponseObservations(variant, latencySeconds, items, exploreLevel)
    {
      CountRequest(feedMethod, variant);
      if diversify {
        CountDiversified(variant);
      }
      Record(ResponseObservations(variant, latencySeconds, items, exploreLevel));
    }
  }
}
