// The reranker glue: the eight-feature vector of a candidate, and `rerank`,
// which scores every candidate with the trained model and sorts them by
// that score. The model file is an input (`None` when it is missing) and
// `predict_proba` is an oracle scoring one feature row.
module Reranker {
  import opened Wrappers
  import opened Numeric
  import opened Lists
  import opened FeedTypes
  import Sorting
  import RetrievalPgvector

  /** `item_map.get(news_id, {})`: what the items table holds about a
      candidate; an absent row has every field `None`. */
  datatype ItemInfo = ItemInfo(
    embedding: Option<seq<real>>,
    title: Option<string>,
    abstractText: Option<string>,
    category: Option<string>,
    subcategory: Option<string>)

  const NoInfo := ItemInfo(None, None, None, None, None)

  /** The parts of `training_config.json` the features read; a missing
      table is the empty map. */
  datatype Config = Config(globalCtr: Option<real>, categoryCtr: map<string, real>, subcategoryCtr: map<string, real>)

  /** `x or y` on optional strings. */
  function OrElse(x: Option<string>, y: Option<string>): Option<string>
  {
    if Truthy(x) then x else y
  }

  /** `item_data.get("title") or candidate.get("title") or ""` */
  function FallbackText(fromItem: Option<string>, fromCandidate: Option<string>): (r: string)
    ensures Truthy(fromItem) ==> r == fromItem.value
    ensures !Truthy(fromItem) && Truthy(fromCandidate) ==> r == fromCandidate.value
    ensures !Truthy(fromItem) && !Truthy(fromCandidate) ==> r == ""
  {
    OrEmpty(OrElse(fromItem, fromCandidate))
  }

  /** `config.get(table, {}).get(key, global_ctr)` with `global_ctr`
      defaulting to 0.0. */
  function CtrOf(table: map<string, real>, key: Option<string>, globalCtr: Option<real>): (r: real)
    ensures key.Some? && key.value in table ==> r == table[key.value]
    ensures !(key.Some? && key.value in table) ==> r == globalCtr.GetOr(0.0)
  {
    if key.Some? && key.value in table then table[key.value] else globalCtr.GetOr(0.0)
  }

  /** `sum(x*y)` over two vectors of one length. */
  function Dot(u: seq<real>, v: seq<real>): real
    requires |u| == |v|
  {
    if u == [] then 0.0 else Dot(u[..|u| - 1], v[..|v| - 1]) + u[|u| - 1] * v[|v| - 1]
  }

  /** `np.linalg.norm(v)`, with `sqrt` the oracle for the square root. */
  function Norm(v: seq<real>, sqrt: real -> real): real
  {
    sqrt(Dot(v, v))
  }

  /** The cosine feature: 0 without both vectors or with a zero denominator,
      otherwise the cosine, which needs equal lengths (`np.dot` raises
      `ValueError` otherwise, here `None`). */
  function Cosine(userVec: Option<seq<real>>, itemVec: Option<seq<real>>, sqrt: real -> real): (r: Option<real>)
    ensures userVec.None? || itemVec.None? ==> r == Some(0.0)
    ensures (userVec.Some? && itemVec.Some? && Norm(userVec.value, sqrt) * Norm(itemVec.value, sqrt) <= 0.0)
            ==> r == Some(0.0)
    ensures r.None? <==>
      userVec.Some? && itemVec.Some? && Norm(userVec.value, sqrt) * Norm(itemVec.value, sqrt) > 0.0
      && |userVec.value| != |itemVec.value|
  {
    if userVec.None? || itemVec.None? then Some(0.0)
    else
      var u, v := userVec.value, itemVec.value;
      var denom := Norm(u, sqrt) * Norm(v, sqrt);
      if denom <= 0.0 then Some(0.0)
      else if |u| != |v| then None
      else Some(Dot(u, v) / denom)
  }

  /** `1.0 if category and category in user_categories else 0.0` */
  function CategoryMatch(category: Option<string>, userCategories: set<string>): (r: real)
    ensures r == 1.0 <==> Truthy(category) && category.value in userCategories
    ensures r == 0.0 || r == 1.0
  {
    if Truthy(category) && category.value in userCategories then 1.0 else 0.0
  }

  /** The recency feature: days since the user's last click, never negative;
      0 without a last click. */
  function Recency(userLastTime: Option<real>, now: real): (r: real)
    ensures r >= 0.0
    ensures userLastTime.None? ==> r == 0.0
  {
    if userLastTime.None? then 0.0 else MaxReal((now - userLastTime.value) / 86400.0, 0.0)
  }

  /** `compute_features`, `None` where the cosine raises. */
  function ComputeFeatures(candidate: Item, info: ItemInfo, userVec: Option<seq<real>>,
                           userCategories: set<string>, userLastTime: Option<real>, config: Config,
                           rankPosition: int, now: real, sqrt: real -> real): (r: Option<seq<real>>)
    ensures r.None? <==> Cosine(userVec, info.embedding, sqrt).None?
    ensures r.Some? ==>
      |r.value| == 8
      && r.value[0] == rankPosition as real
      && r.value[1] == |FallbackText(info.title, candidate.title)| as real
      && r.value[2] == |FallbackText(info.abstractText, candidate.abstractText)| as real
      && r.value[3] == CtrOf(config.categoryCtr, info.category, config.globalCtr)
      && r.value[4] == CtrOf(config.subcategoryCtr, info.subcategory, config.globalCtr)
      && r.value[5] == CategoryMatch(info.category, userCategories)
      && r.value[6] == Recency(userLastTime, now)
      && r.value[7] == Cosine(userVec, info.embedding, sqrt).value
  {
    var cosine := Cosine(userVec, info.embedding, sqrt);
    if cosine.None? then None
    else
      Some([rankPosition as real,
            |FallbackText(info.title, candidate.title)| as real,
            |FallbackText(info.abstractText, candidate.abstractText)| as real,
            CtrOf(config.categoryCtr, info.category, config.globalCtr),
            CtrOf(config.subcategoryCtr, info.subcategory, config.globalCtr),
            CategoryMatch(info.category, userCategories),
            Recency(userLastTime, now),
            cosine.value])
  }

  // ---------------------------------------------------------------------
  // rerank

  /** The latest parseable click time, `None` when none parses. */
  function LastClickTime(clicks: seq<RetrievalPgvector.Click>, strptime: string -> Option<real>): (r: Option<real>)
    ensures r.None? <==> forall i :: 0 <= i < |clicks| ==> RetrievalPgvector.ParseTime(clicks[i].time, strptime).None?
    ensures r.Some? ==> forall i :: 0 <= i < |clicks| ==>
      (RetrievalPgvector.ParseTime(clicks[i].time, strptime).Some? ==>
         RetrievalPgvector.ParseTime(clicks[i].time, strptime).value <= r.value)
    ensures r.Some? ==> exists i :: 0 <= i < |clicks| && RetrievalPgvector.ParseTime(clicks[i].time, strptime) == r
  {
    if clicks == [] then None
    else
      var n := |clicks| - 1;
      var prev := LastClickTime(clicks[..n], strptime);
      var ts := RetrievalPgvector.ParseTime(clicks[n].time, strptime);
      assert forall i :: 0 <= i < n ==> clicks[..n][i] == clicks[i];
      if ts.Some? && (prev.None? || ts.value > prev.value) then ts else prev
  }

  /** The loop keeping the running maximum `user_last_time`. */
  method FindLastClickTime(clicks: seq<RetrievalPgvector.Click>, strptime: string -> Option<real>)
    returns (userLastTime: Option<real>)
    ensures userLastTime == LastClickTime(clicks, strptime)
  {
    userLastTime := None;
    for i := 0 to |clicks|
      invariant userLastTime == LastClickTime(clicks[..i], strptime)
    {
      assert clicks[..i + 1][..i] == clicks[..i];
      var ts := RetrievalPgvector.ParseTime(clicks[i].time, strptime);
      if ts.Some? && (userLastTime.None? || ts.value > userLastTime.value) {
        userLastTime := ts;
      }
    }
    assert clicks[..|clicks|] == clicks;
  }

  /** The truthy categories among the values of `click_categories`. */
  function UserCategories(clickCategories: map<string, Option<string>>): set<string>
  {
    set k | k in clickCategories && Truthy(clickCategories[k]) :: clickCategories[k].value
  }

  /** The truthy categories of the keys outside `todo`. */
  function CategoriesDone(clickCategories: map<string, Option<string>>, todo: set<string>): set<string>
  {
    set k | k in clickCategories && k !in todo && Truthy(clickCategories[k]) :: clickCategories[k].value
  }

  lemma CategoriesDoneStep(clickCategories: map<string, Option<string>>, todo: set<string>, k: string)
    requires k in todo && k in clickCategories
    ensures CategoriesDone(clickCategories, todo - {k})
         == CategoriesDone(clickCategories, todo)
            + (if Truthy(clickCategories[k]) then {clickCategories[k].value} else {})
  {
    var before := CategoriesDone(clickCategories, todo);
    var after := CategoriesDone(clickCategories, todo - {k});
    var added := if Truthy(clickCategories[k]) then {clickCategories[k].value} else {};
    forall c | c in after ensures c in before + added {
      var j :| j in clickCategories && j !in todo - {k} && Truthy(clickCategories[j]) && clickCategories[j].value == c;
      if j != k {
        assert c in before;
      }
    }
  }

  /** The loop over `click_categories.values()`. */
  method CollectUserCategories(clickCategories: map<string, Option<string>>) returns (cats: set<string>)
    ensures cats == UserCategories(clickCategories)
    ensures forall c :: c in cats ==> c != ""
  {
    cats := {};
    var todo := clickCategories.Keys;
    while todo != {}
      invariant todo <= clickCategories.Keys
      invariant cats == CategoriesDone(clickCategories, todo)
      decreases todo
    {
      var k :| k in todo;
      CategoriesDoneStep(clickCategories, todo, k);
      if Truthy(clickCategories[k]) {
        cats := cats + {clickCategories[k].value};
      }
      todo := todo - {k};
    }
  }

  /** The item_map entry of a candidate. */
  function InfoOf(itemMap: map<string, ItemInfo>, id: string): ItemInfo
  {
    if id in itemMap then itemMap[id] else NoInfo
  }

  /** The feature rows of all candidates, ranks counted from 1, or `None`
      when one of them raises. */
  function FeatureRows(candidates: seq<Item>, itemMap: map<string, ItemInfo>, userVec: seq<real>,
                       userCategories: set<string>, userLastTime: Option<real>, config: Config,
                       now: real, sqrt: real -> real): (r: Option<seq<seq<real>>>)
    ensures r.Some? ==> |r.value| == |candidates|
  {
    if candidates == [] then Some([])
    else
      var n := |candidates| - 1;
      var prev := FeatureRows(candidates[..n], itemMap, userVec, userCategories, userLastTime, config, now, sqrt);
      var row := ComputeFeatures(candidates[n], InfoOf(itemMap, candidates[n].newsId), Some(userVec),
                                 userCategories, userLastTime, config, n + 1, now, sqrt);
      if prev.None? || row.None? then None else Some(prev.value + [row.value])
  }

  /** Each row is `compute_features` of its candidate at its 1-based rank. */
  lemma {:induction false} FeatureRowsAt(candidates: seq<Item>, itemMap: map<string, ItemInfo>, userVec: seq<real>,
                                         userCategories: set<string>, userLastTime: Option<real>, config: Config,
                                         now: real, sqrt: real -> real, i: nat)
    requires i < |candidates|
    requires FeatureRows(candidates, itemMap, userVec, userCategories, userLastTime, config, now, sqrt).Some?
    ensures ComputeFeatures(candidates[i], InfoOf(itemMap, candidates[i].newsId), Some(userVec),
                            userCategories, userLastTime, config, i + 1, now, sqrt)
         == Some(FeatureRows(candidates, itemMap, userVec, userCategories, userLastTime, config, now, sqrt).value[i])
  {
    var n := |candidates| - 1;
    if i < n {
      FeatureRowsAt(candidates[..n], itemMap, userVec, userCategories, userLastTime, config, now, sqrt, i);
      assert candidates[..n][i] == candidates[i];
    }
  }

  /** The loop building `features`, stopping at the first row that raises. */
  method BuildFeatures(candidates: seq<Item>, itemMap: map<string, ItemInfo>, userVec: seq<real>,
                       userCategories: set<string>, userLastTime: Option<real>, config: Config,
                       now: real, sqrt: real -> real)
    returns (features: Option<seq<seq<real>>>)
    ensures features == FeatureRows(candidates, itemMap, userVec, userCategories, userLastTime, config, now, sqrt)
  {
    var rows: seq<seq<real>> := [];
    for i := 0 to |candidates|
      invariant FeatureRows(candidates[..i], itemMap, userVec, userCategories, userLastTime, config, now, sqrt) == Some(rows)
    {
      var row := ComputeFeatures(candidates[i], InfoOf(itemMap, candidates[i].newsId), Some(userVec),
                                 userCategories, userLastTime, config, i + 1, now, sqrt);
      FeatureRowsSnoc(candidates, itemMap, userVec, userCategories, userLastTime, config, now, sqrt, i);
      if row.None? {
        NoFeaturesAfterFailure(candidates, itemMap, userVec, userCategories, userLastTime, config, now, sqrt, i + 1);
        return None;
      }
      rows := rows + [row.value];
    }
    assert candidates[..|candidates|] == candidates;
    features := Some(rows);
  }

  /** The rows of one more candidate. */
  lemma FeatureRowsSnoc(candidates: seq<Item>, itemMap: map<string, ItemInfo>, userVec: seq<real>,
                        userCategories: set<string>, userLastTime: Option<real>, config: Config,
                        now: real, sqrt: real -> real, i: nat)
    requires i < |candidates|
    ensures var prev := FeatureRows(candidates[..i], itemMap, userVec, userCategories, userLastTime, config, now, sqrt);
      var row := ComputeFeatures(candidates[i], InfoOf(itemMap, candidates[i].newsId), Some(userVec),
                                 userCategories, userLastTime, config, i + 1, now, sqrt);
      FeatureRows(candidates[..i + 1], itemMap, userVec, userCategories, userLastTime, config, now, sqrt)
        == if prev.None? || row.None? then None else Some(prev.value + [row.value])
  {
    assert candidates[..i + 1][..i] == candidates[..i];
  }

  /** Once a prefix raises, the whole list raises. */
  lemma {:induction false} NoFeaturesAfterFailure(candidates: seq<Item>, itemMap: map<string, ItemInfo>, userVec: seq<real>,
                                                  userCategories: set<string>, userLastTime: Option<real>, config: Config,
                                                  now: real, sqrt: real -> real, j: nat)
    requires j <= |candidates|
    requires FeatureRows(candidates[..j], itemMap, userVec, userCategories, userLastTime, config, now, sqrt).None?
    ensures FeatureRows(candidates, itemMap, userVec, userCategories, userLastTime, config, now, sqrt).None?
    decreases |candidates| - j
  {
    if j < |candidates| {
      assert candidates[..j + 1][..j] == candidates[..j];
      NoFeaturesAfterFailure(candidates, itemMap, userVec, userCategories, userLastTime, config, now, sqrt, j + 1);
    } else {
      assert candidates[..j] == candidates;
    }
  }

  /** Why `rerank` raised. */
  /** Why `rerank` raises: click embeddings of different lengths
      (`np.vstack`), a candidate embedding of another length than the user
      vector (`np.dot`), or no candidates at all, where `np.array([])` is a
      one-dimensional array that `predict_proba` rejects. */
  datatype RerankError = MismatchedEmbeddings | MismatchedCosine | EmptyFeatureMatrix

  /** Each candidate copied with its model score. */
  function Rescored(candidates: seq<Item>, scores: seq<real>): (r: seq<Item>)
    requires |scores| == |candidates|
    ensures |r| == |candidates| && forall i :: 0 <= i < |r| ==> r[i] == candidates[i].(score := scores[i])
  {
    seq(|candidates|, i requires 0 <= i < |candidates| => candidates[i].(score := scores[i]))
  }

  /** The scoring loop and the in-place sort of `reranked`. */
  method ScoreAndSort(candidates: seq<Item>, features: seq<seq<real>>, predict: seq<real> -> real)
    returns (reranked: seq<Item>, ghost order: seq<nat>)
    requires |features| == |candidates|
    ensures |reranked| == |candidates|
    ensures forall i, j :: 0 <= i < j < |reranked| ==> reranked[i].score >= reranked[j].score
    ensures var scores := seq(|features|, i requires 0 <= i < |features| => predict(features[i]));
      && Sorting.IsPermutation(order, |candidates|)
      && Sorting.SortedDesc(scores, order)
      && Sorting.Stable(scores, order)
      && |reranked| == |candidates|
      && forall i :: 0 <= i < |reranked| ==> reranked[i] == candidates[order[i]].(score := scores[order[i]])
  {
    var scores: seq<real> := [];
    for i := 0 to |features|
      invariant |scores| == i && forall t :: 0 <= t < i ==> scores[t] == predict(features[t])
    {
      scores := scores + [predict(features[i])];
    }
    var updated := Rescored(candidates, scores);
    var perm := Sorting.SortIndicesDesc(scores);
    reranked := Sorting.Permute(updated, perm);
    order := perm;
    assert scores == seq(|features|, i requires 0 <= i < |features| => predict(features[i]));
  }

  /** What `rerank` returns: the candidates unchanged without a model or a
      user vector; `MismatchedEmbeddings`, `MismatchedCosine` or
      `EmptyFeatureMatrix` where the code raises; otherwise the candidates
      rescored by the model and listed along `order`, a stable permutation
      by non-increasing score. */
  ghost predicate RerankedAs(candidates: seq<Item>, model: Option<(seq<real> -> real, Config)>,
                             clicks: seq<RetrievalPgvector.Click>, halfLife: real,
                             embeddingRows: seq<(string, RetrievalPgvector.VectorValue)>, fromString: string -> seq<real>,
                             strptime: string -> Option<real>, now: real, exp: real -> real, sqrt: real -> real,
                             itemMap: map<string, ItemInfo>, clickCategories: map<string, Option<string>>,
                             result: Result<seq<Item>, RerankError>, order: seq<nat>)
  {
    var v := RetrievalPgvector.UserVectorFor(clicks, halfLife, embeddingRows, fromString, strptime, now, exp);
    && (model.None? ==> result == Ok(candidates))
    && (model.Some? && v.NoVector? ==> result == Ok(candidates))
    && (model.Some? && v.MismatchedDimensions? ==> result == Err(MismatchedEmbeddings))
    && (model.Some? && v.Vector? ==>
          var rows := FeatureRows(candidates, itemMap, v.values, UserCategories(clickCategories),
                                  LastClickTime(clicks, strptime), model.value.1, now, sqrt);
          && (rows.None? ==> result == Err(MismatchedCosine))
          && (rows.Some? && candidates == [] ==> result == Err(EmptyFeatureMatrix))
          && (rows.Some? && candidates != [] ==>
                var scores := seq(|candidates|, i requires 0 <= i < |candidates| => model.value.0(rows.value[i]));
                && result.Ok?
                && Sorting.IsPermutation(order, |candidates|)
                && Sorting.SortedDesc(scores, order)
                && Sorting.Stable(scores, order)
                && |result.value| == |candidates|
                && forall i :: 0 <= i < |candidates| ==>
                     result.value[i] == candidates[order[i]].(score := scores[order[i]])))
  }

  /** `rerank`. `model` is the loaded predictor (`None` when the model or
      config file is missing); `clicks` the user's click history;
      `embeddingRows`, `itemMap` and `clickCategories` the three item
      queries; `now` the current time in seconds. */
  method Rerank(candidates: seq<Item>, model: Option<(seq<real> -> real, Config)>,
                clicks: seq<RetrievalPgvector.Click>, halfLife: real,
                embeddingRows: seq<(string, RetrievalPgvector.VectorValue)>, fromString: string -> seq<real>,
                strptime: string -> Option<real>, now: real, exp: real -> real, sqrt: real -> real,
                itemMap: map<string, ItemInfo>, clickCategories: map<string, Option<string>>)
    returns (result: Result<seq<Item>, RerankError>, ghost order: seq<nat>)
    ensures RerankedAs(candidates, model, clicks, halfLife, embeddingRows, fromString, strptime, now, exp, sqrt,
                       itemMap, clickCategories, result, order)
  {
    order := [];
    if model.None? {
      return Ok(candidates), order;
    }
    var predict, config := model.value.0, model.value.1;
    var userVec, _ := RetrievalPgvector.BuildUserVector(clicks, halfLife, embeddingRows, fromString, strptime, now, exp);
    if userVec.NoVector? {
      return Ok(candidates), order;
    }
    if userVec.MismatchedDimensions? {
      return Err(MismatchedEmbeddings), order;
    }
    var userLastTime := FindLastClickTime(clicks, strptime);
    var userCategories := CollectUserCategories(clickCategories);
    var features := BuildFeatures(candidates, itemMap, userVec.values, userCategories, userLastTime, config, now, sqrt);
    if features.None? {
      return Err(MismatchedCosine), order;
    }
    if candidates == [] {
      return Err(EmptyFeatureMatrix), order;
    }
    var reranked;
    reranked, order := ScoreAndSort(candidates, features.value, predict);
    result := Ok(reranked);
  }
}
