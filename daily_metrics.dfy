// The daily feed metrics job of ml/scripts/compute_daily_metrics.py: the
// date window, the popularity-based novelty of each item, the
// impression-weighted novelty of each (day, model version, method) group and
// the per-group rows upserted into `daily_feed_metrics`. The four SQL
// aggregates the job reads are its inputs here.
module DailyMetrics {
  import opened Wrappers
  import opened Lists
  import Sorting
  import Numeric

  // ---------------------------------------------------------------------
  // compute_date_range
  // ---------------------------------------------------------------------

  /** `compute_date_range(days)`, dates as day numbers: the window ends
      today and starts `days - 1` days before. */
  function DateRange(today: int, days: int): (r: (int, int))
    ensures r.1 == today
    ensures r.1 - r.0 == days - 1
  {
    (today - (days - 1), today)
  }

  // ---------------------------------------------------------------------
  // build_novelty_map
  // ---------------------------------------------------------------------

  /** A row of the popularity query: an item and its impressions. */
  datatype PopularityRow = PopularityRow(newsId: string, impressions: nat)

  function Counts(rows: seq<PopularityRow>): (cs: seq<nat>)
    ensures |cs| == |rows| && forall i :: 0 <= i < |rows| ==> cs[i] == rows[i].impressions
  {
    seq(|rows|, i requires 0 <= i < |rows| => rows[i].impressions)
  }

  function Ids(rows: seq<PopularityRow>): (ids: seq<string>)
    ensures |ids| == |rows| && forall i :: 0 <= i < |rows| ==> ids[i] == rows[i].newsId
  {
    seq(|rows|, i requires 0 <= i < |rows| => rows[i].newsId)
  }

  function NegatedCount(c: nat): real { -(c as real) }

  /** `sorted(counts)`: the counts in non-decreasing order. */
  function SortedCounts(rows: seq<PopularityRow>): (s: seq<nat>)
    ensures |s| == |rows|
    ensures forall c :: c in s <==> c in Counts(rows)
    ensures forall i, j :: 0 <= i < j < |s| ==> s[i] <= s[j]
  {
    var s := Sorting.SortByKeyDesc(Counts(rows), NegatedCount);
    assert forall i, j :: 0 <= i < j < |s| ==> NegatedCount(s[i]) >= NegatedCount(s[j]);
    s
  }

  /** `sorted(counts)` keeps every count as often as it occurs. */
  lemma SortedCountsPermutes(rows: seq<PopularityRow>)
    ensures multiset(SortedCounts(rows)) == multiset(Counts(rows))
  {
    Sorting.SortByKeyDescIsStableSort(Counts(rows), NegatedCount);
  }

  /** How many entries of `s` are below `c`. */
  function Below(s: seq<nat>, c: nat): (k: nat)
    ensures k <= |s|
  {
    if s == [] then 0 else Below(s[..|s| - 1], c) + if s[|s| - 1] < c then 1 else 0
  }

  /** `max(n - 1, 1)` */
  function RankDenominator(n: nat): (d: nat)
    ensures d >= 1
  {
    if n >= 2 then n - 1 else 1
  }

  /** The percentile of a count: the rank at which it first occurs among the
      sorted counts, which is the number of counts below it. */
  function Percentile(sorted: seq<nat>, c: nat): real
  {
    Below(sorted, c) as real / RankDenominator(|sorted|) as real
  }

  /** The novelty `1.0 - percentile` of count `c` among the rows' counts. */
  function CountNovelty(rows: seq<PopularityRow>, c: nat): real
  {
    1.0 - Percentile(SortedCounts(rows), c)
  }

  function Novelties(rows: seq<PopularityRow>): (vs: seq<real>)
    ensures |vs| == |rows| && forall i :: 0 <= i < |rows| ==> vs[i] == CountNovelty(rows, rows[i].impressions)
  {
    seq(|rows|, i requires 0 <= i < |rows| => CountNovelty(rows, rows[i].impressions))
  }

  /** `build_novelty_map`'s result: empty without rows; otherwise every item
      maps to the novelty of its count (a later row for the same item wins). */
  function NoveltyMap(rows: seq<PopularityRow>): (m: map<string, real>)
    ensures rows == [] ==> m == map[]
    ensures forall id :: id in m <==> id in Ids(rows)
  {
    if rows == [] then map[]
    else PairsMap(Ids(rows), Novelties(rows))
  }

  /** The item of the last row carrying it maps to that row's novelty. */
  lemma NoveltyMapAt(rows: seq<PopularityRow>, i: nat)
    requires i < |rows| && LastOccurrence(Ids(rows), i)
    ensures rows[i].newsId in NoveltyMap(rows)
    ensures NoveltyMap(rows)[rows[i].newsId] == CountNovelty(rows, rows[i].impressions)
  {
    PairsMapAt(Ids(rows), Novelties(rows), i);
  }

  lemma {:induction false} BelowAppend(a: seq<nat>, b: seq<nat>, c: nat)
    ensures Below(a + b, c) == Below(a, c) + Below(b, c)
  {
    if b != [] {
      var n := |b| - 1;
      assert (a + b)[..|a| + n] == a + b[..n];
      BelowAppend(a, b[..n], c);
    } else {
      assert a + b == a;
    }
  }

  lemma {:induction false} BelowAll(s: seq<nat>, c: nat)
    requires forall i :: 0 <= i < |s| ==> s[i] < c
    ensures Below(s, c) == |s|
  {
    if s != [] {
      BelowAll(s[..|s| - 1], c);
    }
  }

  lemma {:induction false} BelowNone(s: seq<nat>, c: nat)
    requires forall i :: 0 <= i < |s| ==> s[i] >= c
    ensures Below(s, c) == 0
  {
    if s != [] {
      BelowNone(s[..|s| - 1], c);
    }
  }

  /** A count never counts itself, and a smaller count that occurs is below
      a larger one. */
  lemma {:induction false} BelowMonotone(s: seq<nat>, c1: nat, c2: nat)
    requires c1 <= c2
    ensures Below(s, c1) <= Below(s, c2)
    ensures c1 < c2 && c1 in s ==> Below(s, c1) < Below(s, c2)
    ensures c2 in s ==> Below(s, c2) < |s|
  {
    if s != [] {
      var n := |s| - 1;
      assert s == s[..n] + [s[n]];
      BelowMonotone(s[..n], c1, c2);
    }
  }

  /** The first occurrence of a count in the sorted list sits at the
      number of counts below it. */
  lemma FirstRank(s: seq<nat>, rank: nat)
    requires forall i, j :: 0 <= i < j < |s| ==> s[i] <= s[j]
    requires rank < |s| && s[rank] !in s[..rank]
    ensures Below(s, s[rank]) == rank
  {
    var c := s[rank];
    var a, b := s[..rank], s[rank..];
    assert s == a + b;
    BelowAppend(a, b, c);
    forall i | 0 <= i < |a|
      ensures a[i] < c
    {
      assert a[i] == s[i] && s[i] <= s[rank] && s[i] != c;
    }
    BelowAll(a, c);
    forall i | 0 <= i < |b|
      ensures b[i] >= c
    {
      assert b[i] == s[rank + i];
      if i > 0 {
        assert s[rank] <= s[rank + i];
      }
    }
    BelowNone(b, c);
  }

  /** Every novelty of a count that occurs lies in [0, 1]. */
  lemma NoveltyRange(rows: seq<PopularityRow>, c: nat)
    requires c in Counts(rows)
    ensures 0.0 <= CountNovelty(rows, c) <= 1.0
  {
    var s := SortedCounts(rows);
    BelowMonotone(s, c, c);
    var b, d := Below(s, c) as real, RankDenominator(|s|) as real;
    assert 0.0 <= b <= d;
    Numeric.QuotientWithin(b, d, 0.0, 1.0);
  }

  /** The smallest count has novelty 1.0. */
  lemma SmallestCountNovelty(rows: seq<PopularityRow>, c: nat)
    requires forall i :: 0 <= i < |rows| ==> c <= rows[i].impressions
    ensures CountNovelty(rows, c) == 1.0
  {
    var s := SortedCounts(rows);
    assert Below(s, c) == 0 by {
      SortedCountsAtLeast(rows, c);
      BelowNone(s, c);
    }
  }

  lemma SortedCountsAtLeast(rows: seq<PopularityRow>, c: nat)
    requires forall i :: 0 <= i < |rows| ==> c <= rows[i].impressions
    ensures forall i :: 0 <= i < |SortedCounts(rows)| ==> SortedCounts(rows)[i] >= c
  {
    var s := SortedCounts(rows);
    var cs := Counts(rows);
    forall i | 0 <= i < |s|
      ensures s[i] >= c
    {
      assert s[i] in cs;
      var j :| 0 <= j < |cs| && cs[j] == s[i];
      assert cs[j] == rows[j].impressions;
    }
  }

  /** A larger count has strictly lower novelty. */
  lemma LargerCountLowerNovelty(rows: seq<PopularityRow>, c1: nat, c2: nat)
    requires c1 in Counts(rows) && c1 < c2
    ensures CountNovelty(rows, c1) > CountNovelty(rows, c2)
  {
    var s := SortedCounts(rows);
    BelowMonotone(s, c1, c2);
    DivideKeepsOrder(Below(s, c1) as real, Below(s, c2) as real, RankDenominator(|s|) as real);
  }

  lemma DivideKeepsOrder(a: real, b: real, d: real)
    requires d > 0.0 && a < b
    ensures a / d < b / d
  {
    assert a / d * d == a;
    assert b / d * d == b;
  }

  /** Every item of the map has a novelty in [0, 1]. */
  lemma NoveltyMapRange(rows: seq<PopularityRow>, id: string)
    requires id in NoveltyMap(rows)
    ensures 0.0 <= NoveltyMap(rows)[id] <= 1.0
  {
    var i := LastOccurrenceOf(Ids(rows), id);
    NoveltyMapAt(rows, i);
    assert Counts(rows)[i] in Counts(rows);
    NoveltyRange(rows, rows[i].impressions);
  }

  /** The loop of `build_novelty_map`: the percentile of every count, kept
      at the first rank the count occurs at (later ranks `continue`). */
  method PercentileTable(sorted: seq<nat>) returns (percentileOf: map<nat, real>)
    requires forall i, j :: 0 <= i < j < |sorted| ==> sorted[i] <= sorted[j]
    ensures forall c :: c in percentileOf <==> c in sorted
    ensures forall c :: c in percentileOf ==> percentileOf[c] == Percentile(sorted, c)
  {
    var n := |sorted|;
    percentileOf := map[];
    for rank := 0 to n
      invariant forall c :: c in percentileOf <==> c in sorted[..rank]
      invariant forall c :: c in percentileOf ==> percentileOf[c] == Percentile(sorted, c)
    {
      var count := sorted[rank];
      assert sorted[..rank + 1] == sorted[..rank] + [count];
      if count in percentileOf {
        continue;
      }
      FirstRank(sorted, rank);
      percentileOf := percentileOf[count := rank as real / RankDenominator(n) as real];
    }
    assert sorted[..n] == sorted;
  }

  /** Looking every row's count up in the percentile table gives the rows'
      novelties. */
  lemma NoveltiesFromTable(rows: seq<PopularityRow>, percentileOf: map<nat, real>, novelties: seq<real>)
    requires forall c :: c in percentileOf <==> c in SortedCounts(rows)
    requires forall c :: c in percentileOf ==> percentileOf[c] == Percentile(SortedCounts(rows), c)
    requires |novelties| == |rows|
    requires forall i :: 0 <= i < |rows| ==>
      rows[i].impressions in percentileOf && novelties[i] == 1.0 - percentileOf[rows[i].impressions]
    ensures novelties == Novelties(rows)
  {
    var vs := Novelties(rows);
    forall i | 0 <= i < |rows|
      ensures novelties[i] == vs[i]
    {
    }
  }

  /** `build_novelty_map`: percentiles of the sorted counts, each count kept
      at its first rank, then one novelty per row. */
  method BuildNoveltyMap(rows: seq<PopularityRow>) returns (m: map<string, real>)
    ensures m == NoveltyMap(rows)
  {
    var counts := Counts(rows);
    if counts == [] {
      return map[];
    }
    var sorted := SortedCounts(rows);
    var percentileOf := PercentileTable(sorted);
    forall i | 0 <= i < |rows|
      ensures rows[i].impressions in percentileOf
    {
      assert counts[i] in counts;
    }
    var novelties := seq(|rows|, i requires 0 <= i < |rows| && rows[i].impressions in percentileOf =>
                               1.0 - percentileOf[rows[i].impressions]);
    NoveltiesFromTable(rows, percentileOf, novelties);
    assert rows != [];
    m := PairsMap(Ids(rows), novelties);
  }

  // ---------------------------------------------------------------------
  // compute_novelty
  // ---------------------------------------------------------------------

  /** `(day, model_version, method)`; `COALESCE` has already replaced a
      NULL model version or method by "unknown". */
  datatype GroupKey = GroupKey(day: int, modelVersion: string, rankingMethod: string)

  datatype ImpressionRow = ImpressionRow(key: GroupKey, newsId: string, impressions: nat)

  /** `novelty_map.get(news_id, 0.0)` */
  function ScoreOf(novelty: map<string, real>, newsId: string): real
  {
    if newsId in novelty then novelty[newsId] else 0.0
  }

  /** One row's share of its group's weighted sum. */
  function Contribution(novelty: map<string, real>, newsId: string, impressions: nat): real
  {
    ScoreOf(novelty, newsId) * impressions as real
  }

  /** With item novelties in [0, 1], a row adds between 0 and its impressions. */
  lemma ContributionWithin(novelty: map<string, real>, newsId: string, impressions: nat)
    requires forall id :: id in novelty ==> 0.0 <= novelty[id] <= 1.0
    ensures 0.0 <= Contribution(novelty, newsId, impressions) <= impressions as real
  {
    Numeric.ScaleWithin(ScoreOf(novelty, newsId), impressions as real);
  }

  /** The impression-weighted novelty of group `k`. */
  function Weighted(rows: seq<ImpressionRow>, novelty: map<string, real>, k: GroupKey): real
  {
    if rows == [] then 0.0
    else
      var r := rows[|rows| - 1];
      Weighted(rows[..|rows| - 1], novelty, k)
        + if r.key == k then Contribution(novelty, r.newsId, r.impressions) else 0.0
  }

  /** The impressions of group `k`. */
  function Impressions(rows: seq<ImpressionRow>, k: GroupKey): nat
  {
    if rows == [] then 0
    else
      var r := rows[|rows| - 1];
      Impressions(rows[..|rows| - 1], k) + if r.key == k then r.impressions else 0
  }

  function GroupKeys(rows: seq<ImpressionRow>): set<GroupKey>
  {
    set i | 0 <= i < |rows| :: rows[i].key
  }

  /** `compute_novelty`'s result: the impression-weighted mean novelty of
      every group that has impressions; groups without impressions are left
      out. */
  function NoveltyByGroup(rows: seq<ImpressionRow>, novelty: map<string, real>): (r: map<GroupKey, real>)
    ensures forall k :: k in r <==> k in GroupKeys(rows) && Impressions(rows, k) > 0
  {
    map k | k in GroupKeys(rows) && Impressions(rows, k) > 0 :: Weighted(rows, novelty, k) / Impressions(rows, k) as real
  }

  /** A group without rows has nothing accumulated. */
  lemma {:induction false} TallyAbsent(rows: seq<ImpressionRow>, novelty: map<string, real>, k: GroupKey)
    requires k !in GroupKeys(rows)
    ensures Weighted(rows, novelty, k) == 0.0 && Impressions(rows, k) == 0
  {
    if rows != [] {
      var n := |rows| - 1;
      assert rows == rows[..n] + [rows[n]];
      TallySnoc(rows[..n], rows[n], novelty, k);
      TallyAbsent(rows[..n], novelty, k);
    }
  }

  /** With item novelties in [0, 1], the weighted sum lies between 0 and the
      impressions. */
  lemma {:induction false} WeightedBounds(rows: seq<ImpressionRow>, novelty: map<string, real>, k: GroupKey)
    requires forall id :: id in novelty ==> 0.0 <= novelty[id] <= 1.0
    ensures 0.0 <= Weighted(rows, novelty, k) <= Impressions(rows, k) as real
  {
    if rows != [] {
      var n := |rows| - 1;
      var r := rows[n];
      assert rows == rows[..n] + [r];
      WeightedBounds(rows[..n], novelty, k);
      TallySnoc(rows[..n], r, novelty, k);
      var wp, ip := Weighted(rows[..n], novelty, k), Impressions(rows[..n], k) as real;
      assert 0.0 <= wp <= ip;
      if r.key == k {
        ContributionWithin(novelty, r.newsId, r.impressions);
        assert Weighted(rows, novelty, k) == wp + Contribution(novelty, r.newsId, r.impressions);
        assert Impressions(rows, k) as real == ip + r.impressions as real;
      } else {
        assert Weighted(rows, novelty, k) == wp;
        assert Impressions(rows, k) as real == ip;
      }
    }
  }

  /** Items missing from the novelty map score 0: a group made only of them
      has novelty 0. */
  lemma {:induction false} UnknownItemsScoreZero(rows: seq<ImpressionRow>, novelty: map<string, real>, k: GroupKey)
    requires forall i :: 0 <= i < |rows| && rows[i].key == k ==> rows[i].newsId !in novelty
    ensures Weighted(rows, novelty, k) == 0.0
  {
    if rows != [] {
      var n := |rows| - 1;
      assert forall i :: 0 <= i < n ==> rows[..n][i] == rows[i];
      UnknownItemsScoreZero(rows[..n], novelty, k);
    }
  }

  /** With item novelties in [0, 1], every group's novelty lies in [0, 1]. */
  lemma NoveltyByGroupRange(rows: seq<ImpressionRow>, novelty: map<string, real>, k: GroupKey)
    requires forall id :: id in novelty ==> 0.0 <= novelty[id] <= 1.0
    requires k in NoveltyByGroup(rows, novelty)
    ensures 0.0 <= NoveltyByGroup(rows, novelty)[k] <= 1.0
  {
    WeightedBounds(rows, novelty, k);
    var w, t := Weighted(rows, novelty, k), Impressions(rows, k) as real;
    Numeric.QuotientWithin(w, t, 0.0, 1.0);
  }

  lemma TallySnoc(rows: seq<ImpressionRow>, r: ImpressionRow, novelty: map<string, real>, k: GroupKey)
    ensures Weighted(rows + [r], novelty, k)
      == Weighted(rows, novelty, k) + if r.key == k then Contribution(novelty, r.newsId, r.impressions) else 0.0
    ensures Impressions(rows + [r], k) == Impressions(rows, k) + if r.key == k then r.impressions else 0
    ensures GroupKeys(rows + [r]) == GroupKeys(rows) + {r.key}
  {
    var s := rows + [r];
    assert s[..|rows|] == rows;
    assert forall j :: 0 <= j < |rows| ==> s[j] == rows[j];
  }

  /** A group's running totals in the `defaultdict`. */
  datatype Tally = Tally(weighted: real, total: nat)

  /** The first loop of `compute_novelty`: the totals of every group met so far. */
  method TallyGroups(rows: seq<ImpressionRow>, novelty: map<string, real>) returns (acc: map<GroupKey, Tally>)
    ensures acc.Keys == GroupKeys(rows)
    ensures forall k :: k in acc ==> acc[k] == Tally(Weighted(rows, novelty, k), Impressions(rows, k))
  {
    acc := map[];
    for i := 0 to |rows|
      invariant acc.Keys == GroupKeys(rows[..i])
      invariant forall k :: k in acc ==> acc[k] == Tally(Weighted(rows[..i], novelty, k), Impressions(rows[..i], k))
    {
      var r := rows[i];
      assert rows[..i + 1] == rows[..i] + [r];
      TallyStep(rows[..i], r, novelty, acc);
      var t := if r.key in acc then acc[r.key] else Tally(0.0, 0);
      acc := acc[r.key := Tally(t.weighted + Contribution(novelty, r.newsId, r.impressions),
                                t.total + r.impressions)];
    }
    assert rows[..|rows|] == rows;
  }

  /** One row added to the totals of the rows before it. */
  lemma TallyStep(pre: seq<ImpressionRow>, r: ImpressionRow, novelty: map<string, real>, acc: map<GroupKey, Tally>)
    requires acc.Keys == GroupKeys(pre)
    requires forall k :: k in acc ==> acc[k] == Tally(Weighted(pre, novelty, k), Impressions(pre, k))
    ensures var t := if r.key in acc then acc[r.key] else Tally(0.0, 0);
      var acc' := acc[r.key := Tally(t.weighted + Contribution(novelty, r.newsId, r.impressions), t.total + r.impressions)];
      && acc'.Keys == GroupKeys(pre + [r])
      && forall k :: k in acc' ==> acc'[k] == Tally(Weighted(pre + [r], novelty, k), Impressions(pre + [r], k))
  {
    forall k ensures Weighted(pre + [r], novelty, k)
        == Weighted(pre, novelty, k) + (if r.key == k then Contribution(novelty, r.newsId, r.impressions) else 0.0)
      && Impressions(pre + [r], k) == Impressions(pre, k) + (if r.key == k then r.impressions else 0)
    {
      TallySnoc(pre, r, novelty, k);
    }
    TallySnoc(pre, r, novelty, r.key);
    if r.key !in acc {
      TallyAbsent(pre, novelty, r.key);
    }
  }

  /** `compute_novelty`: the totals, then the mean of every group with
      impressions. */
  method ComputeNovelty(rows: seq<ImpressionRow>, novelty: map<string, real>) returns (results: map<GroupKey, real>)
    ensures results == NoveltyByGroup(rows, novelty)
  {
    var acc := TallyGroups(rows, novelty);
    results := map[];
    var todo := acc.Keys;
    while todo != {}
      invariant todo <= acc.Keys
      invariant forall k :: k in results <==> k in acc.Keys - todo && acc[k].total > 0
      invariant forall k :: k in results ==> results[k] == acc[k].weighted / acc[k].total as real
      decreases |todo|
    {
      var k :| k in todo;
      if acc[k].total > 0 {
        results := results[k := acc[k].weighted / acc[k].total as real];
      }
      todo := todo - {k};
    }
  }

  // ---------------------------------------------------------------------
  // The rates and rows of main
  // ---------------------------------------------------------------------

  /** `1.0 - unique_subcats / impressions`: the share of impressions that
      repeated a subcategory; `None` without impressions. */
  function RepetitionRate(impressions: nat, uniqueSubcategories: nat): (r: Option<real>)
    ensures r.None? <==> impressions == 0
    ensures r.Some? ==> r.value * impressions as real == impressions as real - uniqueSubcategories as real
    ensures r.Some? && uniqueSubcategories <= impressions ==> 0.0 <= r.value <= 1.0
  {
    if impressions == 0 then None
    else
      var x := uniqueSubcategories as real / impressions as real;
      assert x * impressions as real == uniqueSubcategories as real;
      Some(1.0 - x)
  }

  /** `clicks / impressions if impressions else 0.0` */
  function Ctr(clicks: nat, impressions: nat): (r: real)
    ensures impressions == 0 ==> r == 0.0
    ensures impressions > 0 ==> r * impressions as real == clicks as real
    ensures r >= 0.0
  {
    if impressions == 0 then 0.0 else clicks as real / impressions as real
  }

  /** `count / impressions if impressions else None` (save and hide rates). */
  function RateOrNone(count: nat, impressions: nat): (r: Option<real>)
    ensures r.None? <==> impressions == 0
    ensures r.Some? ==> r.value * impressions as real == count as real && r.value >= 0.0
  {
    if impressions == 0 then None else Some(count as real / impressions as real)
  }

  /** A row of the coverage query. */
  datatype CoverageRow = CoverageRow(key: GroupKey, categories: nat, subcategories: nat,
                                     impressions: nat, uniqueSubcategories: nat)

  /** An entry of `coverage_map`. */
  datatype Coverage = Coverage(categories: nat, subcategories: nat, repetitionRate: Option<real>)

  function CoverageOf(r: CoverageRow): Coverage
  {
    Coverage(r.categories, r.subcategories, RepetitionRate(r.impressions, r.uniqueSubcategories))
  }

  function CoverageKeys(rows: seq<CoverageRow>): (ks: seq<GroupKey>)
    ensures |ks| == |rows| && forall i :: 0 <= i < |rows| ==> ks[i] == rows[i].key
  {
    seq(|rows|, i requires 0 <= i < |rows| => rows[i].key)
  }

  /** `coverage_map`: every group of the coverage rows, a later row for the
      same group winning. */
  function CoverageMap(rows: seq<CoverageRow>): (m: map<GroupKey, Coverage>)
    ensures forall k :: k in m <==> k in CoverageKeys(rows)
    ensures forall i :: 0 <= i < |rows| && LastOccurrence(CoverageKeys(rows), i) ==> m[rows[i].key] == CoverageOf(rows[i])
  {
    var vs := seq(|rows|, i requires 0 <= i < |rows| => CoverageOf(rows[i]));
    PairsMapFacts(CoverageKeys(rows), vs);
    PairsMap(CoverageKeys(rows), vs)
  }

  lemma CoverageMapSnoc(rows: seq<CoverageRow>, r: CoverageRow)
    ensures CoverageMap(rows + [r]) == CoverageMap(rows)[r.key := CoverageOf(r)]
  {
    var s := rows + [r];
    var vs := seq(|rows|, i requires 0 <= i < |rows| => CoverageOf(rows[i]));
    assert CoverageKeys(s) == CoverageKeys(rows) + [r.key];
    assert seq(|s|, i requires 0 <= i < |s| => CoverageOf(s[i])) == vs + [CoverageOf(r)];
    PairsMapSnoc(CoverageKeys(rows), vs, r.key, CoverageOf(r));
  }

  /** The first loop of `main`. */
  method BuildCoverageMap(rows: seq<CoverageRow>) returns (m: map<GroupKey, Coverage>)
    ensures m == CoverageMap(rows)
  {
    m := map[];
    for i := 0 to |rows|
      invariant m == CoverageMap(rows[..i])
    {
      assert rows[..i + 1] == rows[..i] + [rows[i]];
      CoverageMapSnoc(rows[..i], rows[i]);
      m := m[rows[i].key := CoverageOf(rows[i])];
    }
    assert rows[..|rows|] == rows;
  }

  /** A row of the base query. */
  datatype BaseRow = BaseRow(key: GroupKey, impressions: nat, clicks: nat, hides: nat, saves: nat,
                             avgDwellMs: Option<real>, uniqueUsers: nat, uniqueItems: nat)

  /** A row of `daily_feed_metrics`. */
  datatype MetricRow = MetricRow(key: GroupKey, impressions: nat, clicks: nat, hides: nat, saves: nat,
                                 avgDwellMs: Option<real>, ctr: real, saveRate: Option<real>,
                                 hideRate: Option<real>, uniqueUsers: nat, uniqueItems: nat,
                                 coverageCategories: Option<nat>, coverageSubcategories: Option<nat>,
                                 repetitionRate: Option<real>, noveltyProxy: Option<real>)

  /** The row written for one base row: the counts as read, the rates over
      the impressions, and the group's coverage and novelty when it has any. */
  function MetricRowOf(b: BaseRow, coverage: map<GroupKey, Coverage>, novelty: map<GroupKey, real>): MetricRow
  {
    var c := if b.key in coverage then Some(coverage[b.key]) else None;
    MetricRow(b.key, b.impressions, b.clicks, b.hides, b.saves, b.avgDwellMs,
              Ctr(b.clicks, b.impressions), RateOrNone(b.saves, b.impressions),
              RateOrNone(b.hides, b.impressions), b.uniqueUsers, b.uniqueItems,
              if c.Some? then Some(c.value.categories) else None,
              if c.Some? then Some(c.value.subcategories) else None,
              if c.Some? then c.value.repetitionRate else None,
              if b.key in novelty then Some(novelty[b.key]) else None)
  }

  function MetricRows(base: seq<BaseRow>, coverage: map<GroupKey, Coverage>, novelty: map<GroupKey, real>): (rs: seq<MetricRow>)
    ensures |rs| == |base| && forall i :: 0 <= i < |base| ==> rs[i] == MetricRowOf(base[i], coverage, novelty)
  {
    seq(|base|, i requires 0 <= i < |base| => MetricRowOf(base[i], coverage, novelty))
  }

  /** A group without impressions gets CTR 0.0 and no save, hide or
      repetition rate; a group unknown to the coverage and novelty results
      gets no coverage and no novelty. */
  lemma MetricRowEmptyCases(b: BaseRow, coverage: map<GroupKey, Coverage>, novelty: map<GroupKey, real>)
    ensures var m := MetricRowOf(b, coverage, novelty);
      m.key == b.key && m.impressions == b.impressions && m.clicks == b.clicks
      && (b.impressions == 0 ==> m.ctr == 0.0 && m.saveRate.None? && m.hideRate.None?)
      && (b.impressions > 0 ==> m.saveRate.Some? && m.hideRate.Some?)
      && (b.key !in coverage ==> m.coverageCategories.None? && m.repetitionRate.None?)
      && (m.noveltyProxy.Some? <==> b.key in novelty)
  {
  }

  /** The second loop of `main`. */
  method BuildMetricRows(base: seq<BaseRow>, coverage: map<GroupKey, Coverage>, novelty: map<GroupKey, real>)
    returns (rows: seq<MetricRow>)
    ensures rows == MetricRows(base, coverage, novelty)
  {
    rows := [];
    for i := 0 to |base|
      invariant rows == MetricRows(base[..i], coverage, novelty)
    {
      rows := rows + [MetricRowOf(base[i], coverage, novelty)];
    }
    assert base[..|base|] == base;
  }

  /** The table after upserting rows in turn: a later row for the same group
      overrides an earlier or stored one. */
  function Upserted(table: map<GroupKey, MetricRow>, rows: seq<MetricRow>): map<GroupKey, MetricRow>
  {
    if rows == [] then table
    else
      var n := |rows| - 1;
      Upserted(table, rows[..n])[rows[n].key := rows[n]]
  }

  /** Upserting keeps every stored group and adds exactly the groups of the
      rows. */
  lemma {:induction false} UpsertedKeys(table: map<GroupKey, MetricRow>, rows: seq<MetricRow>)
    ensures Upserted(table, rows).Keys == table.Keys + set i | 0 <= i < |rows| :: rows[i].key
  {
    if rows != [] {
      var n := |rows| - 1;
      UpsertedKeys(table, rows[..n]);
      assert (set i | 0 <= i < |rows| :: rows[i].key) == (set i | 0 <= i < n :: rows[..n][i].key) + {rows[n].key};
    }
  }

  /** The `daily_feed_metrics` table. */
  class DailyMetricsTable {
    var rows: map<GroupKey, MetricRow>

    constructor(rows0: map<GroupKey, MetricRow>)
      ensures rows == rows0
    {
      rows := rows0;
    }

    /** `upsert_daily_metrics` */
    method UpsertDailyMetrics(rs: seq<MetricRow>)
      modifies this
      ensures rows == Upserted(old(rows), rs)
    {
      for i := 0 to |rs|
        invariant rows == Upserted(old(rows), rs[..i])
      {
        assert rs[..i + 1][..i] == rs[..i];
        rows := rows[rs[i].key := rs[i]];
      }
      assert rs[..|rs|] == rs;
    }

    /** `main` after the queries: one row per base row, written only when
        there is at least one. */
    method ComputeDailyMetrics(base: seq<BaseRow>, coverageRows: seq<CoverageRow>,
                               popularity: seq<PopularityRow>, impressions: seq<ImpressionRow>)
      returns (written: nat)
      modifies this
      ensures written == |base|
      ensures base == [] ==> rows == old(rows)
      ensures base != [] ==> rows == Upserted(old(rows), MetricRows(base, CoverageMap(coverageRows),
                                                       NoveltyByGroup(impressions, NoveltyMap(popularity))))
    {
      var coverage := BuildCoverageMap(coverageRows);
      var noveltyMap := BuildNoveltyMap(popularity);
      var noveltyByGroup := ComputeNovelty(impressions, noveltyMap);
      var upsertRows := BuildMetricRows(base, coverage, noveltyByGroup);
      if upsertRows == [] {
        return 0;
      }
      UpsertDailyMetrics(upsertRows);
      written := |upsertRows|;
    }
  }
}
