// The explanation builder of apps/backend/app/services/explain.py: the
// top-p% threshold, the reason-tag rules, the recent-click evidence and the
// per-path node statistics.
module Explain {
  import opened Wrappers
  import opened Numeric
  import opened FeedTypes
  import Sorting
  import opened Lists
  import DiversifyTop

  // ---------------------------------------------------------------------
  // _top_percent_threshold
  // ---------------------------------------------------------------------

  /** How many of the values are at least `t`. */
  ghost function CountAtLeast(values: seq<real>, t: real): nat
  {
    |set i | 0 <= i < |values| && values[i] >= t|
  }

  /** How many of the values exceed `t`. */
  ghost function CountAbove(values: seq<real>, t: real): nat
  {
    |set i | 0 <= i < |values| && values[i] > t|
  }

  /** `max(1, ceil(n * percent))`: the rank the threshold is read at. */
  function Rank(n: nat, percent: real): int
  {
    MaxInt(1, Ceil(n as real * percent))
  }

  /** The first `m` entries of a list of distinct indices form a set of size `m`. */
  lemma {:induction false} PrefixSetSize(p: seq<nat>, m: nat)
    requires m <= |p| && Sorting.Distinct(p)
    ensures |set j | 0 <= j < m :: p[j]| == m
  {
    if m > 0 {
      PrefixSetSize(p, m - 1);
      var s := set j | 0 <= j < m - 1 :: p[j];
      assert (set j | 0 <= j < m :: p[j]) == s + {p[m - 1]};
      assert p[m - 1] !in s;
    }
  }

  /** The value a stable descending sort puts at rank `idx + 1`. */
  function SortedAt(values: seq<real>, idx: nat): real
    requires idx < |values|
  {
    var order := Sorting.SortIndicesDesc(values);
    values[order[idx]]
  }

  /** Rank `idx + 1` of the sorted values is met by at least `idx + 1`
      values and exceeded by at most `idx` of them. */
  lemma SortedAtCounts(values: seq<real>, idx: nat)
    requires idx < |values|
    ensures CountAtLeast(values, SortedAt(values, idx)) >= idx + 1
    ensures CountAbove(values, SortedAt(values, idx)) <= idx
  {
    var order := Sorting.SortIndicesDesc(values);
    var t := values[order[idx]];
    var upTo := set j | 0 <= j < idx + 1 :: order[j];
    var before := set j | 0 <= j < idx :: order[j];
    PrefixSetSize(order, idx + 1);
    PrefixSetSize(order, idx);
    var atLeast := set i | 0 <= i < |values| && values[i] >= t;
    var above := set i | 0 <= i < |values| && values[i] > t;
    assert upTo <= atLeast;
    SubsetCard(upTo, atLeast);
    forall i | i in above ensures i in before {
      assert i in order;
      var j :| 0 <= j < |order| && order[j] == i;
    }
    SubsetCard(above, before);
  }

  /** `_top_percent_threshold`: 1.0 for no values; otherwise the value of
      rank `max(1, ceil(n * percent))`, so that at least that many values
      reach it and fewer than that many exceed it. */
  function TopPercentThreshold(values: seq<real>, percent: real): (t: real)
    requires 0.0 <= percent <= 1.0
    ensures values == [] ==> t == 1.0
    ensures values != [] ==>
      t in values
      && 1 <= Rank(|values|, percent) <= |values|
      && CountAtLeast(values, t) >= Rank(|values|, percent)
      && CountAbove(values, t) < Rank(|values|, percent)
  {
    if values == [] then 1.0
    else
      var idx := MaxInt(0, Ceil(|values| as real * percent) - 1);
      RankIndex(|values|, percent);
      SortedAtCounts(values, idx);
      SortedAt(values, idx)
  }

  /** The index `max(0, ceil(n * percent) - 1)` is in range and one below the rank. */
  lemma RankIndex(n: nat, percent: real)
    requires 0.0 <= percent <= 1.0 && n > 0
    ensures 0 <= MaxInt(0, Ceil(n as real * percent) - 1) < n
    ensures MaxInt(0, Ceil(n as real * percent) - 1) + 1 == Rank(n, percent)
    ensures 1 <= Rank(n, percent) <= n
  {
    DiversifyTop.ScaleLe(n as real, percent, 1.0);
  }

  // ---------------------------------------------------------------------
  // build_explanations
  // ---------------------------------------------------------------------

  /** The `context` dict: `method` (absent is None here), node statistics by
      path, recent clicks and preferred ids (absent keys are the empty ones). */
  datatype Context = Context(
    methodName: Option<string>,
    topNodeStats: map<string, NodeStats>,
    recentClicks: seq<RecentClick>,
    preferredIds: set<string>)

  /** `context.get("method", "rerank_only")` */
  function MethodOf(ctx: Context): string
  {
    ctx.methodName.GetOr("rerank_only")
  }

  /** `item.get("rel_score", item.get("score", 0.0))` */
  function RelBase(item: Item): real
  {
    if item.breakdown.Some? then item.breakdown.value.relScore else item.score
  }

  /** `item.get("top_bonus", 0.0)` */
  function TopBase(item: Item): real
  {
    if item.breakdown.Some? then item.breakdown.value.topBonus else 0.0
  }

  /** `item.get("redundancy_penalty", 0.0)` */
  function RepBase(item: Item): real
  {
    if item.breakdown.Some? then item.breakdown.value.redundancyPenalty else 0.0
  }

  /** `item.get("coverage_gain", 0.0)` */
  function CovBase(item: Item): real
  {
    if item.breakdown.Some? then item.breakdown.value.coverageGain else 0.0
  }

  /** `item.get("total_score", item.get("score", 0.0))` */
  function TotalBase(item: Item): real
  {
    if item.breakdown.Some? then item.breakdown.value.totalScore else item.score
  }

  function Column(items: seq<Item>, f: Item -> real): (r: seq<real>)
    ensures |r| == |items| && forall i :: 0 <= i < |items| ==> r[i] == f(items[i])
  {
    seq(|items|, i requires 0 <= i < |items| => f(items[i]))
  }

  /** The four normalised columns and the two thresholds. */
  datatype Norms = Norms(rel: seq<real>, top: seq<real>, rep: seq<real>, cov: seq<real>,
                         relThreshold: real, topThreshold: real)

  function NormsOf(items: seq<Item>): (n: Norms)
    ensures |n.rel| == |n.top| == |n.rep| == |n.cov| == |items|
  {
    var rel := DiversifyTop.NormalizeScores(Column(items, RelBase));
    var top := DiversifyTop.NormalizeScores(Column(items, TopBase));
    Norms(rel, top,
          DiversifyTop.NormalizeScores(Column(items, RepBase)),
          DiversifyTop.NormalizeScores(Column(items, CovBase)),
          TopPercentThreshold(rel, 0.2), TopPercentThreshold(top, 0.3))
  }

  /** `item.get("top_path")`, falling back to the category path when falsy. */
  function TopPathOf(item: Item): Option<string>
  {
    if Truthy(item.topPath) then item.topPath else PathOf(item.category, item.subcategory)
  }

  /** The reason-tag rules, in the order the source appends them. */
  function ReasonTags(rel: real, top: real, rep: real, cov: real,
                      relThreshold: real, topThreshold: real, hasTop: bool, methodName: string): seq<ReasonTag>
  {
    TagIf(rel >= relThreshold, RelevantToYou)
    + TagIf(hasTop && top >= topThreshold, UnderexploredInterest)
    + TagIf(cov > 0.0, AddsTopicVariety)
    + TagIf(rep > 0.0 && (rel >= relThreshold || top >= topThreshold), ReducesRepetition)
    + TagIf(methodName == "popular_fallback", PopularFallback)
  }

  /** `reason_tags.append(tag)` when the rule holds. */
  function TagIf(rule: bool, tag: ReasonTag): (r: seq<ReasonTag>)
    ensures forall t :: t in r <==> rule && t == tag
  {
    if rule then [tag] else []
  }

  /** Each tag is present exactly when its rule holds, and at most once. */
  lemma ReasonTagsIff(rel: real, top: real, rep: real, cov: real,
                      relThreshold: real, topThreshold: real, hasTop: bool, methodName: string)
    ensures var tags := ReasonTags(rel, top, rep, cov, relThreshold, topThreshold, hasTop, methodName);
      (RelevantToYou in tags <==> rel >= relThreshold)
      && (UnderexploredInterest in tags <==> hasTop && top >= topThreshold)
      && (AddsTopicVariety in tags <==> cov > 0.0)
      && (ReducesRepetition in tags <==> rep > 0.0 && (rel >= relThreshold || top >= topThreshold))
      && (PopularFallback in tags <==> methodName == "popular_fallback")
  {
    var a := TagIf(rel >= relThreshold, RelevantToYou);
    var b := TagIf(hasTop && top >= topThreshold, UnderexploredInterest);
    var c := TagIf(cov > 0.0, AddsTopicVariety);
    var d := TagIf(rep > 0.0 && (rel >= relThreshold || top >= topThreshold), ReducesRepetition);
    var e := TagIf(methodName == "popular_fallback", PopularFallback);
    assert ReasonTags(rel, top, rep, cov, relThreshold, topThreshold, hasTop, methodName) == a + b + c + d + e;
  }

  /** The explained copy of item `idx`. */
  function ExplainAt(items: seq<Item>, norms: Norms, ctx: Context, idx: nat): Item
    requires |norms.rel| == |norms.top| == |norms.rep| == |norms.cov| == |items| && idx < |items|
  {
    var item := items[idx];
    var path := TopPathOf(item);
    var tags := ReasonTags(norms.rel[idx], norms.top[idx], norms.rep[idx], norms.cov[idx],
                           norms.relThreshold, norms.topThreshold, |ctx.topNodeStats| > 0, MethodOf(ctx));
    var stats := if path.Some? && path.value in ctx.topNodeStats then Some(ctx.topNodeStats[path.value]) else None;
    var explanation := Explanation(path, tags, norms.rel[idx], norms.top[idx], norms.rep[idx], norms.cov[idx],
                                   TotalBase(item), ctx.recentClicks, stats, MethodOf(ctx));
    var updated := if item.newsId in ctx.preferredIds then item.(isPreferred := true) else item;
    updated.(explanation := Some(explanation))
  }

  /** `build_explanations`: one explained copy per ranked item, in order;
      the input list is a value and is left as it was. */
  method BuildExplanations(rankedItems: seq<Item>, ctx: Context) returns (explained: seq<Item>)
    ensures |explained| == |rankedItems|
    ensures forall i :: 0 <= i < |rankedItems| ==> explained[i] == ExplainAt(rankedItems, NormsOf(rankedItems), ctx, i)
  {
    var norms := NormsOf(rankedItems);
    explained := ExplainEach(rankedItems, norms, ctx);
  }

  /** The `for idx, item in enumerate(ranked_items)` loop. */
  method ExplainEach(rankedItems: seq<Item>, norms: Norms, ctx: Context) returns (explained: seq<Item>)
    requires |norms.rel| == |norms.top| == |norms.rep| == |norms.cov| == |rankedItems|
    ensures |explained| == |rankedItems|
    ensures forall i :: 0 <= i < |rankedItems| ==> explained[i] == ExplainAt(rankedItems, norms, ctx, i)
  {
    explained := [];
    for idx := 0 to |rankedItems|
      invariant |explained| == idx
      invariant forall i :: 0 <= i < idx ==> explained[i] == ExplainAt(rankedItems, norms, ctx, i)
    {
      var updated := ExplainAt(rankedItems, norms, ctx, idx);
      explained := explained + [updated];
    }
  }

  /** An explained item is a copy of its input with only `is_preferred`
      and `explanation` set, and `is_preferred` is set exactly for the
      preferred ids. */
  lemma ExplainAtCopies(items: seq<Item>, ctx: Context, idx: nat)
    requires idx < |items|
    ensures var r := ExplainAt(items, NormsOf(items), ctx, idx);
      r.(isPreferred := items[idx].isPreferred, explanation := items[idx].explanation) == items[idx]
      && r.isPreferred == (items[idx].isPreferred || items[idx].newsId in ctx.preferredIds)
  {
  }

  /** The tags of an explained item follow the rules on its normalised
      scores, `popular_fallback` follows the method, and `top_path` falls back
      to the category path. */
  lemma ExplainAtTags(items: seq<Item>, ctx: Context, idx: nat)
    requires idx < |items|
    ensures var n := NormsOf(items);
            var e := ExplainAt(items, n, ctx, idx).explanation;
      e.Some?
      && e.value.topPath == TopPathOf(items[idx])
      && e.value.retrievalMethod == MethodOf(ctx)
      && (RelevantToYou in e.value.reasonTags <==> n.rel[idx] >= n.relThreshold)
      && (UnderexploredInterest in e.value.reasonTags <==> |ctx.topNodeStats| > 0 && n.top[idx] >= n.topThreshold)
      && (AddsTopicVariety in e.value.reasonTags <==> n.cov[idx] > 0.0)
      && (ReducesRepetition in e.value.reasonTags <==>
            n.rep[idx] > 0.0 && (n.rel[idx] >= n.relThreshold || n.top[idx] >= n.topThreshold))
      && (PopularFallback in e.value.reasonTags <==> MethodOf(ctx) == "popular_fallback")
  {
    var n := NormsOf(items);
    ReasonTagsIff(n.rel[idx], n.top[idx], n.rep[idx], n.cov[idx], n.relThreshold, n.topThreshold,
                  |ctx.topNodeStats| > 0, MethodOf(ctx));
  }

  /** The most relevant item is always tagged `relevant_to_you`. */
  lemma MostRelevantTagged(items: seq<Item>, ctx: Context, idx: nat)
    requires idx < |items| && forall j :: 0 <= j < |items| ==> RelBase(items[j]) <= RelBase(items[idx])
    ensures RelevantToYou in ExplainAt(items, NormsOf(items), ctx, idx).explanation.value.reasonTags
  {
    var base := Column(items, RelBase);
    NormalizedMax(base, idx);
    MaxMeetsThreshold(DiversifyTop.NormalizeScores(base), idx, 0.2);
    ExplainAtTags(items, ctx, idx);
  }

  /** Normalising keeps a maximum maximal. */
  lemma NormalizedMax(values: seq<real>, idx: nat)
    requires idx < |values| && forall j :: 0 <= j < |values| ==> values[j] <= values[idx]
    ensures forall j :: 0 <= j < |values| ==>
      DiversifyTop.NormalizeScores(values)[j] <= DiversifyTop.NormalizeScores(values)[idx]
  {
  }

  /** A maximum is at least the top-percent threshold, which is one of the
      values. */
  lemma MaxMeetsThreshold(values: seq<real>, idx: nat, percent: real)
    requires 0.0 <= percent <= 1.0
    requires idx < |values| && forall j :: 0 <= j < |values| ==> values[j] <= values[idx]
    ensures values[idx] >= TopPercentThreshold(values, percent)
  {
    var t := TopPercentThreshold(values, percent);
    var k :| 0 <= k < |values| && values[k] == t;
  }

  // ---------------------------------------------------------------------
  // load_recent_clicks
  // ---------------------------------------------------------------------

  /** The truthy news ids of the clicks, each where it first occurs. */
  function DistinctIds(ids: seq<Option<string>>): (r: seq<string>)
    ensures Lists.DistinctSeq(r)
    ensures forall x :: x in r <==> Some(x) in ids && x != ""
  {
    if ids == [] then []
    else
      var pre := DistinctIds(ids[..|ids| - 1]);
      var last := ids[|ids| - 1];
      assert ids == ids[..|ids| - 1] + [last];
      if Truthy(last) && last.value !in pre then pre + [last.value] else pre
  }

  lemma DistinctIdsSnoc(ids: seq<Option<string>>, i: nat)
    requires i < |ids|
    ensures DistinctIds(ids[..i + 1]) ==
      var pre := DistinctIds(ids[..i]);
      if Truthy(ids[i]) && ids[i].value !in pre then pre + [ids[i].value] else pre
  {
    assert ids[..i + 1][..|ids[..i + 1]| - 1] == ids[..i];
  }

  /** The distinct ids of a prefix are a prefix of the distinct ids. */
  lemma {:induction false} DistinctIdsPrefix(ids: seq<Option<string>>, i: nat)
    requires i <= |ids|
    ensures |DistinctIds(ids[..i])| <= |DistinctIds(ids)|
    ensures DistinctIds(ids[..i]) == DistinctIds(ids)[..|DistinctIds(ids[..i])|]
    decreases |ids| - i
  {
    if i < |ids| {
      DistinctIdsSnoc(ids, i);
      DistinctIdsPrefix(ids, i + 1);
      var a, b, c := DistinctIds(ids[..i]), DistinctIds(ids[..i + 1]), DistinctIds(ids);
      assert a == b[..|a|];
      assert b[..|a|] == c[..|a|];
    } else {
      assert ids[..i] == ids;
    }
  }

  /** The ids `load_recent_clicks` keeps: the first `limit` distinct truthy
      ids. The length test comes after the append, so a limit of 0 or less
      still lets the first click through when it has an id. */
  function RecentIds(ids: seq<Option<string>>, limit: int): seq<string>
  {
    if limit >= 1 then Take(DistinctIds(ids), limit)
    else if ids != [] && Truthy(ids[0]) then [ids[0].value]
    else []
  }

  /** The loop over the clicks with its early `break`. */
  method CollectRecentIds(ids: seq<Option<string>>, limit: int) returns (orderedIds: seq<string>)
    ensures orderedIds == RecentIds(ids, limit)
  {
    orderedIds := [];
    var i := 0;
    while i < |ids|
      invariant 0 <= i <= |ids|
      invariant orderedIds == DistinctIds(ids[..i])
      invariant i > 0 ==> |orderedIds| < limit
    {
      DistinctIdsSnoc(ids, i);
      var newsId := ids[i];
      if Truthy(newsId) && newsId.value !in orderedIds {
        orderedIds := orderedIds + [newsId.value];
      }
      if |orderedIds| >= limit {
        RecentIdsStop(ids, limit, i);
        return;
      }
      i := i + 1;
    }
    assert ids[..i] == ids;
    RecentIdsEnd(ids, limit);
  }

  /** Stopping right after the prefix `ids[..i + 1]` first reaches the limit
      leaves exactly the kept ids. */
  lemma RecentIdsStop(ids: seq<Option<string>>, limit: int, i: nat)
    requires i < |ids| && |DistinctIds(ids[..i + 1])| >= limit
    requires i > 0 ==> |DistinctIds(ids[..i])| < limit
    ensures DistinctIds(ids[..i + 1]) == RecentIds(ids, limit)
  {
    DistinctIdsSnoc(ids, i);
    assert ids[..0] == [];
    var p := DistinctIds(ids[..i + 1]);
    assert |p| <= |DistinctIds(ids[..i])| + 1;
    if limit >= 1 {
      DistinctIdsPrefix(ids, i + 1);
      var d := DistinctIds(ids);
      assert |p| == limit && p == d[..limit];
      if limit == |d| {
        assert d[..limit] == d;
      }
    }
  }

  /** Running through every click without reaching the limit keeps them all. */
  lemma RecentIdsEnd(ids: seq<Option<string>>, limit: int)
    requires |ids| > 0 ==> |DistinctIds(ids)| < limit
    ensures DistinctIds(ids) == RecentIds(ids, limit)
  {
  }

  /** `load_recent_clicks`: the kept ids with their titles (`titleOf` is the
      items table; a missing item or a NULL title is `None`). */
  method LoadRecentClicks(ids: seq<Option<string>>, limit: int, titleOf: string -> Option<string>)
    returns (recent: seq<RecentClick>)
    ensures |recent| == |RecentIds(ids, limit)|
    ensures forall j :: 0 <= j < |recent| ==>
      recent[j] == RecentClick(RecentIds(ids, limit)[j], titleOf(RecentIds(ids, limit)[j]))
  {
    if |ids| == 0 {
      return [];
    }
    var orderedIds := CollectRecentIds(ids, limit);
    if |orderedIds| == 0 {
      return [];
    }
    recent := seq(|orderedIds|, j requires 0 <= j < |orderedIds| => RecentClick(orderedIds[j], titleOf(orderedIds[j])));
  }

  /** The kept ids are distinct truthy click ids in first-seen order, and
      there are at most `limit` of them (at most one for `limit <= 0`). */
  lemma RecentIdsShape(ids: seq<Option<string>>, limit: int)
    ensures var r := RecentIds(ids, limit);
      Lists.DistinctSeq(r)
      && (forall x :: x in r ==> Some(x) in ids && x != "")
      && |r| <= MaxInt(limit, 1)
      && r == DistinctIds(ids)[..|r|]
  {
    var d := DistinctIds(ids);
    if limit < 1 && ids != [] && Truthy(ids[0]) {
      DistinctIdsPrefix(ids, 1);
      DistinctIdsSnoc(ids, 0);
      assert ids[..0] == [];
    }
    if limit >= 1 && limit < |d| {
      assert forall x :: x in d[..limit] ==> x in d;
    }
  }

  // ---------------------------------------------------------------------
  // load_top_node_stats
  // ---------------------------------------------------------------------

  /** One `(category, subcategory, clicks, exposures, underexplored_score)` row. */
  datatype StatsRow = StatsRow(category: Option<string>, subcategory: Option<string>,
                               clicks: Option<int>, exposures: Option<int>, underScore: Option<real>)

  /** The path a row with a category is keyed under. */
  function StatsPath(r: StatsRow): string
    requires Truthy(r.category)
  {
    if Truthy(r.subcategory) then r.category.value + "/" + r.subcategory.value else r.category.value
  }

  function StatsOfRow(r: StatsRow): NodeStats
  {
    NodeStats(r.clicks.GetOr(0), r.exposures.GetOr(0), r.underScore.GetOr(0.0))
  }

  /** The statistics by path: rows without a category are skipped and a
      later row with the same path replaces an earlier one. */
  function StatsByPath(rows: seq<StatsRow>): (m: map<string, NodeStats>)
    ensures forall path :: path in m <==>
      exists i :: 0 <= i < |rows| && Truthy(rows[i].category) && StatsPath(rows[i]) == path
  {
    if rows == [] then map[]
    else
      var pre := rows[..|rows| - 1];
      var r := rows[|rows| - 1];
      var m := StatsByPath(pre);
      assert forall i :: 0 <= i < |pre| ==> pre[i] == rows[i];
      if Truthy(r.category) then m[StatsPath(r) := StatsOfRow(r)] else m
  }

  /** A path maps to the statistics of the last row keyed under it. */
  lemma {:induction false} StatsByPathLast(rows: seq<StatsRow>, i: nat)
    requires i < |rows| && Truthy(rows[i].category)
    requires forall j :: i < j < |rows| && Truthy(rows[j].category) ==> StatsPath(rows[j]) != StatsPath(rows[i])
    ensures StatsByPath(rows)[StatsPath(rows[i])] == StatsOfRow(rows[i])
  {
    if i < |rows| - 1 {
      StatsByPathLast(rows[..|rows| - 1], i);
    }
  }

  /** `load_top_node_stats` over the fetched rows. */
  method LoadTopNodeStats(rows: seq<StatsRow>) returns (stats: map<string, NodeStats>)
    ensures stats == StatsByPath(rows)
  {
    stats := map[];
    for i := 0 to |rows|
      invariant stats == StatsByPath(rows[..i])
    {
      assert rows[..i + 1][..i] == rows[..i];
      var r := rows[i];
      if Truthy(r.category) {
        stats := stats[StatsPath(r) := StatsOfRow(r)];
      }
    }
    assert rows[..|rows|] == rows;
  }
}
