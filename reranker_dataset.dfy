// The training-set builder of ml/scripts/build_reranker_dataset.py: the
// split list read from the environment, the per-user context (clicked
// items' embeddings averaged with a half-life weight, their categories,
// the latest click time), the feature row written for each candidate row,
// and the per-user cache and row limit of the build loop. Database queries
// are inputs: the click history of a user, the item embeddings and
// categories, and the streamed candidate rows.
module RerankerDataset {
  import opened Wrappers
  import opened Lists
  import opened Text
  import Sorting

  // ---------------------------------------------------------------------
  // get_splits_env
  // ---------------------------------------------------------------------

  /** `[item.strip() for item in value.split(",") if item.strip()]` */
  function SplitEntries(value: string): seq<string>
  {
    StrippedEntries(SplitOn(value, ','))
  }

  function StrippedEntries(parts: seq<string>): seq<string>
  {
    if parts == [] then []
    else
      var t := Strip(parts[0]);
      (if t != [] then [t] else []) + StrippedEntries(parts[1..])
  }

  /** The entries are the non-empty stripped pieces. */
  lemma {:induction false} StrippedEntriesIff(parts: seq<string>, x: string)
    ensures x in StrippedEntries(parts) <==> x != [] && exists p :: p in parts && Strip(p) == x
  {
    if parts != [] {
      StrippedEntriesIff(parts[1..], x);
      if x != [] && exists p :: p in parts && Strip(p) == x {
        var p :| p in parts && Strip(p) == x;
        if p != parts[0] {
          assert p in parts[1..];
        }
      }
      assert forall p :: p in parts[1..] ==> p in parts;
    }
  }

  /** An entry is a non-empty piece between commas, stripped. */
  lemma SplitEntriesIff(value: string, x: string)
    ensures x in SplitEntries(value) <==> x != [] && exists p :: p in SplitOn(value, ',') && Strip(p) == x
  {
    StrippedEntriesIff(SplitOn(value, ','), x);
  }

  /** `get_splits_env` as written: when the variable holds no entry, the
      fallback is the default string itself, not its entries. */
  function GetSplitsEnvAsWritten(value: Option<string>, default: string): (r: seq<string>)
    ensures |r| >= 1
    ensures SplitEntries(value.GetOr(default)) != [] ==> r == SplitEntries(value.GetOr(default))
    ensures SplitEntries(value.GetOr(default)) == [] ==> r == [default]
  {
    var splits := SplitEntries(value.GetOr(default));
    if splits != [] then splits else [default]
  }

  /** The datasets the script builds for a split list: train when "train" is
      listed, then dev when "dev" is. */
  function DatasetsToBuild(splits: seq<string>): (r: seq<string>)
    ensures "train" in r <==> "train" in splits
    ensures "dev" in r <==> "dev" in splits
    ensures |r| <= 2
  {
    (if "train" in splits then ["train"] else []) + (if "dev" in splits then ["dev"] else [])
  }

  /** Two comma-separated words with no blank at either end are the two
      entries. */
  lemma TwoEntries(a: string, b: string)
    requires ',' !in a && ',' !in b
    requires a != [] && !IsSpace(a[0]) && !IsSpace(a[|a| - 1])
    requires b != [] && !IsSpace(b[0]) && !IsSpace(b[|b| - 1])
    ensures SplitEntries(a + [','] + b) == [a, b]
  {
    SplitOnFirst(a, ',', b);
    SplitOnNoSep(b, ',');
    var parts := SplitOn(a + [','] + b, ',');
    assert parts == [a, b];
    StripNoSpace(a);
    StripNoSpace(b);
    assert parts[1..] == [b];
    assert StrippedEntries(parts[1..]) == [b] + StrippedEntries([]);
  }

  lemma DefaultEntries()
    ensures SplitEntries("train,dev") == ["train", "dev"]
  {
    assert "train,dev" == "train" + [','] + "dev";
    TwoEntries("train", "dev");
  }

  /** With the default "train,dev" and a variable set to an empty (or
      all-blank) list, the script as written builds neither dataset. */
  lemma EmptySplitsBuildNothing()
    ensures GetSplitsEnvAsWritten(Some(""), "train,dev") == ["train,dev"]
    ensures DatasetsToBuild(GetSplitsEnvAsWritten(Some(""), "train,dev")) == []
  {
    assert SplitOn("", ',') == [""];
    assert Strip("") == "";
    assert "train" != "train,dev" && "dev" != "train,dev";
  }

  /** `get_splits_env` with the fallback meant: the entries of the variable,
      else what an unset variable gives (the entries of the default, else
      the default string). */
  function GetSplitsEnv(value: Option<string>, default: string): (r: seq<string>)
    ensures |r| >= 1
  {
    var splits := SplitEntries(value.GetOr(default));
    if splits != [] then splits else GetSplitsEnvAsWritten(None, default)
  }

  /** With the corrected fallback, an empty or unset variable builds both
      default datasets; an explicit list builds exactly what it names. */
  lemma DefaultSplitsBuildBoth(value: Option<string>)
    requires SplitEntries(value.GetOr("train,dev")) == []
    ensures DatasetsToBuild(GetSplitsEnv(value, "train,dev")) == ["train", "dev"]
  {
    DefaultEntries();
    BothDefaultDatasets();
  }

  lemma BothDefaultDatasets()
    ensures DatasetsToBuild(["train", "dev"]) == ["train", "dev"]
  {
    assert "train" in ["train", "dev"];
    assert "dev" in ["train", "dev"];
  }

  // ---------------------------------------------------------------------
  // build_user_context
  // ---------------------------------------------------------------------

  type Vector = seq<real>

  /** One clicked impression of the user: news id, session time text and
      impression id, as the history query returns them (newest first,
      already limited to the history length). */
  datatype ClickRow = ClickRow(newsId: string, time: Option<string>, impressionId: string)

  /** The item table and the external pieces of the context computation:
      parsed embeddings and categories by news id, the `TIME_FORMAT` parser
      (to seconds), the current time, the half-life, and the decay
      `t ↦ exp(-ln 2 · t)` of an age measured in half-lives. */
  datatype ContextEnv = ContextEnv(
    vectors: map<string, Option<Vector>>,
    categories: map<string, Option<string>>,
    parseTime: string -> Option<int>,
    now: int,
    halfLifeDays: real,
    decay: real -> real)

  datatype UserContext = UserContext(vector: Option<Vector>, categories: set<string>, lastTime: Option<int>)

  /** Every embedding in the item table has the same length, which
      `np.vstack` demands of the embeddings it stacks. */
  ghost predicate SameDims(vectors: map<string, Option<Vector>>)
  {
    forall a, b :: a in vectors && b in vectors && vectors[a].Some? && vectors[b].Some? ==>
      |vectors[a].value| == |vectors[b].value|
  }

  /** `parse_time`: empty or missing text, or text the format rejects, is None. */
  function ParseTime(env: ContextEnv, v: Option<string>): (t: Option<int>)
    ensures v.None? || v == Some("") ==> t.None?
  {
    if v.None? || v.value == "" then None else env.parseTime(v.value)
  }

  /** Some click time does not parse: ages fall back to ranks. */
  predicate UseFallback(env: ContextEnv, rows: seq<ClickRow>)
  {
    exists i :: 0 <= i < |rows| && ParseTime(env, rows[i].time).None?
  }

  function NewsIds(rows: seq<ClickRow>): (r: seq<string>)
    ensures |r| == |rows| && forall i :: 0 <= i < |rows| ==> r[i] == rows[i].newsId
  {
    seq(|rows|, i requires 0 <= i < |rows| => rows[i].newsId)
  }

  /** The fallback sort key: `int(impression_id)`, 0 when it is not a number. */
  function ImpressionKey(r: ClickRow): real
  {
    match ParseInt(r.impressionId)
    case Some(n) => n as real
    case None => 0.0
  }

  function Ranks(n: nat): (r: seq<real>)
    ensures |r| == n && forall i :: 0 <= i < n ==> r[i] == i as real
  {
    seq(n, i => i as real)
  }

  /** Fallback ages: the index of the click in the clicks sorted by
      descending impression id (stable), the last index winning for a news
      id clicked twice. */
  function FallbackAges(rows: seq<ClickRow>): map<string, real>
  {
    var ordered := Sorting.SortByKeyDesc(rows, ImpressionKey);
    PairsMap(NewsIds(ordered), Ranks(|ordered|))
  }

  /** `max((now - ts) / 86400, 0)` in days. */
  function AgeDays(now: int, ts: int): (d: real)
    ensures d >= 0.0
    ensures ts <= now ==> d * 86400.0 == (now - ts) as real
  {
    var d := (now - ts) as real / 86400.0;
    if d > 0.0 then d else 0.0
  }

  /** The age of each click, in click order (only when every time parses). */
  function TimedAgeList(env: ContextEnv, rows: seq<ClickRow>): (r: seq<real>)
    requires !UseFallback(env, rows)
    ensures |r| == |rows|
  {
    seq(|rows|, i requires 0 <= i < |rows| && !UseFallback(env, rows) =>
      AgeDays(env.now, ParseTime(env, rows[i].time).value))
  }

  /** The latest parsed click time. */
  function LatestTime(env: ContextEnv, rows: seq<ClickRow>): (t: int)
    requires rows != [] && !UseFallback(env, rows)
    ensures forall i :: 0 <= i < |rows| ==> ParseTime(env, rows[i].time).value <= t
    ensures exists i :: 0 <= i < |rows| && ParseTime(env, rows[i].time).value == t
  {
    var n := |rows| - 1;
    var last := ParseTime(env, rows[n].time).value;
    if n == 0 then last
    else
      assert !UseFallback(env, rows[..n]) by {
        assert forall i :: 0 <= i < n ==> rows[..n][i] == rows[i];
      }
      var prev := LatestTime(env, rows[..n]);
      assert forall i :: 0 <= i < n ==> rows[..n][i] == rows[i];
      if last > prev then last else prev
  }

  function LastTime(env: ContextEnv, rows: seq<ClickRow>): (t: Option<int>)
    ensures t.None? <==> rows == [] || UseFallback(env, rows)
  {
    if rows == [] || UseFallback(env, rows) then None else Some(LatestTime(env, rows))
  }

  /** The weight of a click of the given age. */
  function Weight(env: ContextEnv, ageDays: real): real
  {
    if env.halfLifeDays > 0.0 then env.decay(ageDays / env.halfLifeDays) else 1.0
  }

  predicate HasVector(env: ContextEnv, newsId: string)
  {
    newsId in env.vectors && env.vectors[newsId].Some?
  }

  /** The embeddings of the clicks that have one, in click order. */
  function EmbeddingsOf(env: ContextEnv, rows: seq<ClickRow>): (r: seq<Vector>)
    ensures |r| <= |rows|
  {
    if rows == [] then []
    else
      var n := |rows| - 1;
      EmbeddingsOf(env, rows[..n]) + if HasVector(env, rows[n].newsId) then [env.vectors[rows[n].newsId].value] else []
  }

  /** The weights of the same clicks, ages looked up in `ages` (0 if absent). */
  function WeightsOf(env: ContextEnv, ages: map<string, real>, rows: seq<ClickRow>): (r: seq<real>)
    ensures |r| == |EmbeddingsOf(env, rows)|
  {
    if rows == [] then []
    else
      var n := |rows| - 1;
      var age := if rows[n].newsId in ages then ages[rows[n].newsId] else 0.0;
      WeightsOf(env, ages, rows[..n]) + if HasVector(env, rows[n].newsId) then [Weight(env, age)] else []
  }

  /** The truthy categories of the clicks that have an embedding. */
  function CategoriesOf(env: ContextEnv, rows: seq<ClickRow>): set<string>
  {
    if rows == [] then {}
    else
      var n := |rows| - 1;
      var id := rows[n].newsId;
      CategoriesOf(env, rows[..n])
        + if HasVector(env, id) && id in env.categories && env.categories[id].Some? && env.categories[id].value != ""
          then {env.categories[id].value} else {}
  }

  function Sum(ws: seq<real>): real
  {
    if ws == [] then 0.0 else Sum(ws[..|ws| - 1]) + ws[|ws| - 1]
  }

  /** Coordinate `j` of `Σ w_i · e_i`. */
  function WeightedSum(embs: seq<Vector>, ws: seq<real>, j: nat): real
    requires |embs| == |ws| && forall i :: 0 <= i < |embs| ==> j < |embs[i]|
  {
    if embs == [] then 0.0
    else
      var n := |embs| - 1;
      WeightedSum(embs[..n], ws[..n], j) + ws[n] * embs[n][j]
  }

  /** `np.average(np.vstack(embs), axis=0, weights=ws)`. */
  function Average(embs: seq<Vector>, ws: seq<real>): (v: Vector)
    requires |embs| == |ws| > 0 && Sum(ws) != 0.0
    requires forall i :: 0 <= i < |embs| ==> |embs[i]| == |embs[0]|
    ensures |v| == |embs[0]|
    ensures forall j :: 0 <= j < |v| ==> v[j] * Sum(ws) == WeightedSum(embs, ws, j)
  {
    var v := seq(|embs[0]|, j requires 0 <= j < |embs[0]| => WeightedSum(embs, ws, j) / Sum(ws));
    forall j | 0 <= j < |v|
      ensures v[j] * Sum(ws) == WeightedSum(embs, ws, j)
    {
      DivideTimes(WeightedSum(embs, ws, j), Sum(ws));
    }
    v
  }

  lemma DivideTimes(a: real, d: real)
    requires d != 0.0
    ensures a / d * d == a
  {
  }

  /** Every embedding of the clicks is one of the item table's. */
  lemma {:induction false} EmbeddingsFromTable(env: ContextEnv, rows: seq<ClickRow>, i: nat)
    requires i < |EmbeddingsOf(env, rows)|
    ensures exists id :: id in env.vectors && env.vectors[id] == Some(EmbeddingsOf(env, rows)[i])
  {
    var n := |rows| - 1;
    var prev := EmbeddingsOf(env, rows[..n]);
    if i < |prev| {
      EmbeddingsFromTable(env, rows[..n], i);
      assert EmbeddingsOf(env, rows)[i] == prev[i];
    } else {
      var id := rows[n].newsId;
      assert HasVector(env, id);
      assert env.vectors[id] == Some(EmbeddingsOf(env, rows)[i]);
    }
  }

  /** Every embedding of the clicks has the table's common length. */
  lemma EmbeddingsSameDims(env: ContextEnv, rows: seq<ClickRow>)
    requires SameDims(env.vectors)
    ensures forall i, k :: 0 <= i < |EmbeddingsOf(env, rows)| && 0 <= k < |EmbeddingsOf(env, rows)| ==>
      |EmbeddingsOf(env, rows)[i]| == |EmbeddingsOf(env, rows)[k]|
  {
    var e := EmbeddingsOf(env, rows);
    forall i, k | 0 <= i < |e| && 0 <= k < |e|
      ensures |e[i]| == |e[k]|
    {
      EmbeddingsFromTable(env, rows, i);
      EmbeddingsFromTable(env, rows, k);
      var a :| a in env.vectors && env.vectors[a] == Some(e[i]);
      var b :| b in env.vectors && env.vectors[b] == Some(e[k]);
    }
  }

  function Ages(env: ContextEnv, rows: seq<ClickRow>): map<string, real>
  {
    if UseFallback(env, rows) then FallbackAges(rows) else PairsMap(NewsIds(rows), TimedAgeList(env, rows))
  }

  /** The context of a non-empty click list, given the ages of its news
      ids and its last time. */
  function ContextFrom(env: ContextEnv, rows: seq<ClickRow>, ages: map<string, real>, last: Option<int>): (c: UserContext)
    requires SameDims(env.vectors)
  {
    var embs := EmbeddingsOf(env, rows);
    var ws := WeightsOf(env, ages, rows);
    var cats := CategoriesOf(env, rows);
    if embs == [] || Sum(ws) == 0.0 then UserContext(None, cats, last)
    else
      EmbeddingsSameDims(env, rows);
      UserContext(Some(Average(embs, ws)), cats, last)
  }

  /** What `build_user_context` returns for the user's clicked rows. */
  function UserContextOf(env: ContextEnv, rows: seq<ClickRow>): (c: UserContext)
    requires SameDims(env.vectors)
  {
    if rows == [] then UserContext(None, {}, None)
    else ContextFrom(env, rows, Ages(env, rows), LastTime(env, rows))
  }

  /** No clicks: no vector, no categories, no last time. */
  lemma NoClicksContext(env: ContextEnv)
    requires SameDims(env.vectors)
    ensures UserContextOf(env, []) == UserContext(None, {}, None)
  {
  }

  /** A category belongs to the user exactly when some click with an
      embedding is of that (non-empty) category. */
  lemma {:induction false} CategoriesOfIff(env: ContextEnv, rows: seq<ClickRow>, c: string)
    ensures c in CategoriesOf(env, rows) <==>
      exists i :: (0 <= i < |rows| && HasVector(env, rows[i].newsId)
        && rows[i].newsId in env.categories && env.categories[rows[i].newsId] == Some(c) && c != "")
  {
    if rows != [] {
      var n := |rows| - 1;
      CategoriesOfIff(env, rows[..n], c);
      assert forall i :: 0 <= i < n ==> rows[..n][i] == rows[i];
    }
  }

  /** There are no embeddings exactly when no clicked item has one. */
  lemma {:induction false} NoEmbeddingsIff(env: ContextEnv, rows: seq<ClickRow>)
    ensures EmbeddingsOf(env, rows) == [] <==> forall i :: 0 <= i < |rows| ==> !HasVector(env, rows[i].newsId)
  {
    if rows != [] {
      var n := |rows| - 1;
      NoEmbeddingsIff(env, rows[..n]);
      assert forall i :: 0 <= i < n ==> rows[..n][i] == rows[i];
    }
  }

  /** The user vector is absent exactly when no click has an embedding or
      the weights add up to 0; a present vector has the embeddings' length
      and is their weighted mean. */
  lemma UserVectorCases(env: ContextEnv, rows: seq<ClickRow>, ages: map<string, real>, last: Option<int>)
    requires SameDims(env.vectors)
    ensures var c := ContextFrom(env, rows, ages, last);
      c.vector.None? <==>
        ((forall i :: 0 <= i < |rows| ==> !HasVector(env, rows[i].newsId)) || Sum(WeightsOf(env, ages, rows)) == 0.0)
    ensures var c := ContextFrom(env, rows, ages, last); var embs := EmbeddingsOf(env, rows); var ws := WeightsOf(env, ages, rows);
      c.vector.Some? ==>
        (embs != [] && (forall i :: 0 <= i < |embs| ==> |embs[i]| == |embs[0]|) && |c.vector.value| == |embs[0]|
         && forall j :: 0 <= j < |embs[0]| ==> c.vector.value[j] * Sum(ws) == WeightedSum(embs, ws, j))
  {
    NoEmbeddingsIff(env, rows);
    var embs, ws := EmbeddingsOf(env, rows), WeightsOf(env, ages, rows);
    if embs != [] && Sum(ws) != 0.0 {
      EmbeddingsSameDims(env, rows);
      assert ContextFrom(env, rows, ages, last).vector == Some(Average(embs, ws));
    }
  }

  /** In fallback mode every clicked news id's age is its rank among the
      clicks sorted by descending impression id (its last position there),
      and there is no last time. */
  lemma FallbackAgeIsRank(env: ContextEnv, rows: seq<ClickRow>, id: string)
    requires UseFallback(env, rows) && id in NewsIds(rows)
    ensures LastTime(env, rows).None?
    ensures var ordered := Sorting.SortByKeyDesc(rows, ImpressionKey);
      exists i :: 0 <= i < |ordered| && ordered[i].newsId == id && Ages(env, rows)[id] == i as real
        && forall j :: i < j < |ordered| ==> ordered[j].newsId != id
  {
    var ordered := Sorting.SortByKeyDesc(rows, ImpressionKey);
    var k :| 0 <= k < |rows| && rows[k].newsId == id;
    assert rows[k] in ordered;
    assert id in NewsIds(ordered);
    var i := LastOccurrenceOf(NewsIds(ordered), id);
    assert ordered[i].newsId == id;
    PairsMapAt(NewsIds(ordered), Ranks(|ordered|), i);
  }

  /** With every time parsed, each clicked news id's age is that of its last
      click, never negative, and the last time is the latest click. */
  lemma TimedAgeIsLastClick(env: ContextEnv, rows: seq<ClickRow>, id: string)
    requires !UseFallback(env, rows) && id in NewsIds(rows)
    ensures LastTime(env, rows) == Some(LatestTime(env, rows))
    ensures exists i :: (0 <= i < |rows| && rows[i].newsId == id && LastOccurrence(NewsIds(rows), i)
      && Ages(env, rows)[id] == AgeDays(env.now, ParseTime(env, rows[i].time).value))
    ensures Ages(env, rows)[id] >= 0.0
  {
    var i := LastOccurrenceOf(NewsIds(rows), id);
    assert rows[i].newsId == id;
    PairsMapAt(NewsIds(rows), TimedAgeList(env, rows), i);
  }

  /** The age loop of the timed branch: `age_map[news_id] = age`. */
  method TimedAges(env: ContextEnv, rows: seq<ClickRow>) returns (ages: map<string, real>)
    requires !UseFallback(env, rows)
    ensures ages == PairsMap(NewsIds(rows), TimedAgeList(env, rows))
  {
    ages := map[];
    for i := 0 to |rows|
      invariant ages == PairsMap(NewsIds(rows)[..i], TimedAgeList(env, rows)[..i])
    {
      var ts := ParseTime(env, rows[i].time).value;
      PairsMapSnoc(NewsIds(rows)[..i], TimedAgeList(env, rows)[..i], rows[i].newsId, AgeDays(env.now, ts));
      assert NewsIds(rows)[..i + 1] == NewsIds(rows)[..i] + [rows[i].newsId];
      assert TimedAgeList(env, rows)[..i + 1] == TimedAgeList(env, rows)[..i] + [AgeDays(env.now, ts)];
      ages := ages[rows[i].newsId := AgeDays(env.now, ts)];
    }
    assert NewsIds(rows)[..|rows|] == NewsIds(rows);
    assert TimedAgeList(env, rows)[..|rows|] == TimedAgeList(env, rows);
  }

  /** The ages and last time of `build_user_context`: ranks in fallback
      mode, else day ages and the latest time. */
  method ComputeAges(env: ContextEnv, rows: seq<ClickRow>) returns (ages: map<string, real>, last: Option<int>)
    requires rows != []
    ensures ages == Ages(env, rows) && last == LastTime(env, rows)
  {
    if UseFallback(env, rows) {
      ages := FallbackAges(rows);
      last := None;
    } else {
      ages := TimedAges(env, rows);
      last := Some(LatestTime(env, rows));
    }
  }

  /** The loop over the clicks: embeddings, weights and categories of the
      clicks whose item has an embedding. */
  method FoldClicks(env: ContextEnv, rows: seq<ClickRow>, ages: map<string, real>)
    returns (embeddings: seq<Vector>, weights: seq<real>, userCategories: set<string>)
    ensures embeddings == EmbeddingsOf(env, rows)
    ensures weights == WeightsOf(env, ages, rows)
    ensures userCategories == CategoriesOf(env, rows)
  {
    weights, embeddings, userCategories := [], [], {};
    for i := 0 to |rows|
      invariant embeddings == EmbeddingsOf(env, rows[..i])
      invariant weights == WeightsOf(env, ages, rows[..i])
      invariant userCategories == CategoriesOf(env, rows[..i])
    {
      assert rows[..i + 1][..i] == rows[..i];
      var id := rows[i].newsId;
      if !HasVector(env, id) {
        continue;
      }
      var age := if id in ages then ages[id] else 0.0;
      embeddings := embeddings + [env.vectors[id].value];
      weights := weights + [Weight(env, age)];
      if id in env.categories && env.categories[id].Some? && env.categories[id].value != "" {
        userCategories := userCategories + {env.categories[id].value};
      }
    }
    assert rows[..|rows|] == rows;
  }

  /** `build_user_context` over the user's clicked rows. */
  method BuildUserContext(env: ContextEnv, rows: seq<ClickRow>) returns (c: UserContext)
    requires SameDims(env.vectors)
    ensures c == UserContextOf(env, rows)
  {
    if rows == [] {
      return UserContext(None, {}, None);
    }
    var ages, lastTime := ComputeAges(env, rows);
    var embeddings, weights, userCategories := FoldClicks(env, rows, ages);
    if embeddings == [] || Sum(weights) == 0.0 {
      return UserContext(None, userCategories, lastTime);
    }
    EmbeddingsSameDims(env, rows);
    return UserContext(Some(Average(embeddings, weights)), userCategories, lastTime);
  }

  // ---------------------------------------------------------------------
  // Feature rows and the build loop
  // ---------------------------------------------------------------------

  /** One streamed candidate row (a clicked or sampled unclicked impression
      joined with its session and item). */
  datatype DatasetRow = DatasetRow(
    split: string, impressionId: string, newsId: string, position: Option<int>, clicked: bool,
    userId: string, time: Option<string>, category: Option<string>, subcategory: Option<string>,
    title: Option<string>, abstractText: Option<string>, embedding: Option<Vector>)

  /** The click-through rates by category and subcategory, and the global
      rate they fall back to. */
  datatype Ctrs = Ctrs(global: real, byCategory: map<Option<string>, real>, bySubcategory: map<Option<string>, real>)

  datatype FeatureRow = FeatureRow(
    split: string, impressionId: string, userId: string, newsId: string, labelValue: nat, position: int,
    titleLen: nat, abstractLen: nat, categoryCtr: real, subcategoryCtr: real, categoryMatch: real,
    recencyDays: real, cosineSim: real)

  function LengthOrZero(s: Option<string>): nat
  {
    if s.Some? then |s.value| else 0
  }

  /** The written row for one candidate, given the user's context: the
      label, the position, the text lengths, the click-through rates with
      their global fallback, the category match, the days from the user's
      last click back to this impression (when both times are known) and
      the cosine similarity, which is an input, of the user and item
      vectors (when both exist). */
  function Features(env: ContextEnv, row: DatasetRow, ctx: UserContext, ctrs: Ctrs,
                    cosine: (Vector, Vector) -> real): (f: FeatureRow)
    ensures f.labelValue <= 1 && (f.labelValue == 1 <==> row.clicked)
    ensures row.position.None? ==> f.position == 0
    ensures row.position.Some? ==> f.position == row.position.value
    ensures f.recencyDays >= 0.0
    ensures ctx.lastTime.None? || ParseTime(env, row.time).None? ==> f.recencyDays == 0.0
    ensures ctx.lastTime.Some? && ParseTime(env, row.time).Some? ==>
      f.recencyDays == AgeDays(ctx.lastTime.value, ParseTime(env, row.time).value)
    ensures f.categoryCtr == if row.category in ctrs.byCategory then ctrs.byCategory[row.category] else ctrs.global
    ensures f.subcategoryCtr == if row.subcategory in ctrs.bySubcategory then ctrs.bySubcategory[row.subcategory] else ctrs.global
    ensures f.categoryMatch == 0.0 || f.categoryMatch == 1.0
    ensures f.categoryMatch == 1.0 <==> row.category.Some? && row.category.value != "" && row.category.value in ctx.categories
    ensures ctx.vector.None? || row.embedding.None? ==> f.cosineSim == 0.0
    ensures ctx.vector.Some? && row.embedding.Some? ==> f.cosineSim == cosine(ctx.vector.value, row.embedding.value)
    ensures f.titleLen == LengthOrZero(row.title) && f.abstractLen == LengthOrZero(row.abstractText)
  {
    var current := ParseTime(env, row.time);
    var recency := if ctx.lastTime.Some? && current.Some? then AgeDays(ctx.lastTime.value, current.value) else 0.0;
    var sim := if ctx.vector.Some? && row.embedding.Some? then cosine(ctx.vector.value, row.embedding.value) else 0.0;
    var matched := row.category.Some? && row.category.value != "" && row.category.value in ctx.categories;
    FeatureRow(
      row.split, row.impressionId, row.userId, row.newsId,
      if row.clicked then 1 else 0,
      if row.position.Some? then row.position.value else 0,
      LengthOrZero(row.title), LengthOrZero(row.abstractText),
      if row.category in ctrs.byCategory then ctrs.byCategory[row.category] else ctrs.global,
      if row.subcategory in ctrs.bySubcategory then ctrs.bySubcategory[row.subcategory] else ctrs.global,
      if matched then 1.0 else 0.0,
      recency, sim)
  }

  /** How many rows the loop writes: all of them, or with a (non-zero)
      limit `m`, stopping once the count reaches `m` (one row when `m` is
      negative). */
  function RowsWritten(n: nat, maxRows: Option<int>): (w: nat)
    ensures w <= n
    ensures maxRows.None? || maxRows == Some(0) ==> w == n
    ensures maxRows.Some? && maxRows.value > 0 ==> w == if n < maxRows.value then n else maxRows.value
    ensures maxRows.Some? && maxRows.value < 0 ==> w == if n == 0 then 0 else 1
  {
    if maxRows.None? || maxRows.value == 0 then n
    else
      var cap := if maxRows.value < 1 then 1 else maxRows.value;
      if n < cap then n else cap
  }

  function Users(rows: seq<DatasetRow>): (us: seq<string>)
    ensures |us| == |rows| && forall i :: 0 <= i < |rows| ==> us[i] == rows[i].userId
  {
    seq(|rows|, i requires 0 <= i < |rows| => rows[i].userId)
  }

  /** The cache holds exactly the users already built, each with the
      context of that user's clicks. */
  ghost predicate CacheHolds(env: ContextEnv, clicksOf: string -> seq<ClickRow>,
                             cache: map<string, UserContext>, built: seq<string>)
    requires SameDims(env.vectors)
  {
    (forall u :: u in cache <==> u in built) &&
    forall u :: u in cache ==> cache[u] == UserContextOf(env, clicksOf(u))
  }

  /** The context of each candidate's user. */
  ghost function Contexts(env: ContextEnv, clicksOf: string -> seq<ClickRow>, rows: seq<DatasetRow>): (cs: seq<UserContext>)
    requires SameDims(env.vectors)
    ensures |cs| == |rows|
  {
    if rows == [] then []
    else Contexts(env, clicksOf, rows[..|rows| - 1]) + [UserContextOf(env, clicksOf(rows[|rows| - 1].userId))]
  }

  /** The feature row of each candidate with the matching context. */
  function RowsWith(env: ContextEnv, rows: seq<DatasetRow>, contexts: seq<UserContext>,
                    ctrs: Ctrs, cosine: (Vector, Vector) -> real): (out: seq<FeatureRow>)
    requires |contexts| == |rows|
    ensures |out| == |rows|
  {
    if rows == [] then []
    else
      var n := |rows| - 1;
      RowsWith(env, rows[..n], contexts[..n], ctrs, cosine) + [Features(env, rows[n], contexts[n], ctrs, cosine)]
  }

  /** The rows the loop writes for `rows`: each candidate's feature row
      with the context of the candidate's user. */
  ghost function ExpectedRows(env: ContextEnv, clicksOf: string -> seq<ClickRow>, rows: seq<DatasetRow>,
                              ctrs: Ctrs, cosine: (Vector, Vector) -> real): (out: seq<FeatureRow>)
    requires SameDims(env.vectors)
  {
    RowsWith(env, rows, Contexts(env, clicksOf, rows), ctrs, cosine)
  }

  /** Context `i` is that of candidate `i`'s user. */
  lemma {:induction false} ContextsAt(env: ContextEnv, clicksOf: string -> seq<ClickRow>, rows: seq<DatasetRow>, i: nat)
    requires SameDims(env.vectors) && i < |rows|
    ensures Contexts(env, clicksOf, rows)[i] == UserContextOf(env, clicksOf(rows[i].userId))
  {
    var n := |rows| - 1;
    var prev := Contexts(env, clicksOf, rows[..n]);
    var last := UserContextOf(env, clicksOf(rows[n].userId));
    assert Contexts(env, clicksOf, rows) == prev + [last];
    if i < n {
      ContextsAt(env, clicksOf, rows[..n], i);
      assert rows[..n][i] == rows[i];
      assert (prev + [last])[i] == prev[i];
    }
  }

  /** Row `i` is the feature row of candidate `i` with context `i`. */
  lemma {:induction false} RowsWithAt(env: ContextEnv, rows: seq<DatasetRow>, contexts: seq<UserContext>,
                                      ctrs: Ctrs, cosine: (Vector, Vector) -> real, i: nat)
    requires |contexts| == |rows| && i < |rows|
    ensures RowsWith(env, rows, contexts, ctrs, cosine)[i] == Features(env, rows[i], contexts[i], ctrs, cosine)
  {
    var n := |rows| - 1;
    if i < n {
      RowsWithAt(env, rows[..n], contexts[..n], ctrs, cosine, i);
      assert rows[..n][i] == rows[i] && contexts[..n][i] == contexts[i];
    }
  }

  /** Row `i` written is the feature row of candidate `i` with the context
      of its user. */
  lemma ExpectedRowsAt(env: ContextEnv, clicksOf: string -> seq<ClickRow>, rows: seq<DatasetRow>,
                       ctrs: Ctrs, cosine: (Vector, Vector) -> real, i: nat)
    requires SameDims(env.vectors) && i < |rows|
    ensures |ExpectedRows(env, clicksOf, rows, ctrs, cosine)| == |rows|
    ensures ExpectedRows(env, clicksOf, rows, ctrs, cosine)[i]
            == Features(env, rows[i], UserContextOf(env, clicksOf(rows[i].userId)), ctrs, cosine)
  {
    var cs := Contexts(env, clicksOf, rows);
    RowsWithAt(env, rows, cs, ctrs, cosine, i);
    ContextsAt(env, clicksOf, rows, i);
  }

  /** The rows written for one more candidate. */
  lemma ExpectedRowsSnoc(env: ContextEnv, clicksOf: string -> seq<ClickRow>, rows: seq<DatasetRow>,
                         ctrs: Ctrs, cosine: (Vector, Vector) -> real, i: nat, ctx: UserContext)
    requires SameDims(env.vectors) && i < |rows|
    requires ctx == UserContextOf(env, clicksOf(rows[i].userId))
    ensures ExpectedRows(env, clicksOf, rows[..i + 1], ctrs, cosine)
            == ExpectedRows(env, clicksOf, rows[..i], ctrs, cosine) + [Features(env, rows[i], ctx, ctrs, cosine)]
  {
    var cs := Contexts(env, clicksOf, rows[..i + 1]);
    assert rows[..i + 1][..i] == rows[..i];
    assert cs == Contexts(env, clicksOf, rows[..i]) + [ctx];
    assert cs[..i] == Contexts(env, clicksOf, rows[..i]);
  }

  /** The users built after one more candidate. */
  lemma UsersSnoc(rows: seq<DatasetRow>, i: nat)
    requires i < |rows|
    ensures FirstSeen(Users(rows[..i + 1])) ==
      if rows[i].userId in FirstSeen(Users(rows[..i])) then FirstSeen(Users(rows[..i]))
      else FirstSeen(Users(rows[..i])) + [rows[i].userId]
  {
    assert Users(rows[..i + 1]) == Users(rows[..i]) + [rows[i].userId];
    FirstSeenSnoc(Users(rows[..i]), rows[i].userId);
  }

  /** The cache lookup of the loop: a cached context, or one computed and
      stored on the user's first row. */
  method ContextFor(env: ContextEnv, clicksOf: string -> seq<ClickRow>,
                    cache: map<string, UserContext>, built: seq<string>, u: string)
    returns (ctx: UserContext, cache': map<string, UserContext>, built': seq<string>)
    requires SameDims(env.vectors)
    requires CacheHolds(env, clicksOf, cache, built)
    ensures ctx == UserContextOf(env, clicksOf(u))
    ensures CacheHolds(env, clicksOf, cache', built')
    ensures built' == if u in built then built else built + [u]
  {
    cache', built' := cache, built;
    if u !in cache {
      var c := BuildUserContext(env, clicksOf(u));
      cache' := cache[u := c];
      built' := built + [u];
    }
    ctx := cache'[u];
  }

  /** One turn of the build loop: the next candidate's feature row, with
      its user's context from the cache. */
  method WriteRow(env: ContextEnv, clicksOf: string -> seq<ClickRow>, rows: seq<DatasetRow>,
                  cache: map<string, UserContext>, built: seq<string>, out: seq<FeatureRow>,
                  ctrs: Ctrs, cosine: (Vector, Vector) -> real)
    returns (cache': map<string, UserContext>, built': seq<string>, out': seq<FeatureRow>)
    requires SameDims(env.vectors)
    requires |out| < |rows| && out == ExpectedRows(env, clicksOf, rows[..|out|], ctrs, cosine)
    requires CacheHolds(env, clicksOf, cache, built) && built == FirstSeen(Users(rows[..|out|]))
    ensures |out'| == |out| + 1 && out' == ExpectedRows(env, clicksOf, rows[..|out'|], ctrs, cosine)
    ensures CacheHolds(env, clicksOf, cache', built') && built' == FirstSeen(Users(rows[..|out'|]))
  {
    var i := |out|;
    var u := rows[i].userId;
    UsersSnoc(rows, i);
    var ctx;
    ctx, cache', built' := ContextFor(env, clicksOf, cache, built, u);
    ExpectedRowsSnoc(env, clicksOf, rows, ctrs, cosine, i, ctx);
    out' := out + [Features(env, rows[i], ctx, ctrs, cosine)];
  }

  /** The build loop of `build_dataset`: one feature row per streamed row,
      each user's context computed on the user's first row and then taken
      from the cache. `built` lists the users whose context was computed,
      in that order. */
  method BuildDataset(env: ContextEnv, clicksOf: string -> seq<ClickRow>, rows: seq<DatasetRow>,
                      maxRows: Option<int>, ctrs: Ctrs, cosine: (Vector, Vector) -> real)
    returns (out: seq<FeatureRow>, built: seq<string>)
    requires SameDims(env.vectors)
    ensures |out| == RowsWritten(|rows|, maxRows)
    ensures out == ExpectedRows(env, clicksOf, rows[..|out|], ctrs, cosine)
    ensures built == FirstSeen(Users(rows[..|out|]))
  {
    var cache: map<string, UserContext> := map[];
    out, built := [], [];
    var count := 0;
    for i := 0 to |rows|
      invariant count == i == |out|
      invariant out == ExpectedRows(env, clicksOf, rows[..i], ctrs, cosine)
      invariant built == FirstSeen(Users(rows[..i]))
      invariant CacheHolds(env, clicksOf, cache, built)
      invariant maxRows.Some? && maxRows.value != 0 ==> i < (if maxRows.value < 1 then 1 else maxRows.value)
    {
      cache, built, out := WriteRow(env, clicksOf, rows, cache, built, out, ctrs, cosine);
      count := count + 1;
      if maxRows.Some? && maxRows.value != 0 && count >= maxRows.value {
        assert |out| == RowsWritten(|rows|, maxRows);
        break;
      }
    }
  }
}
