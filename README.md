# TopFeed feed pipeline — a Dafny model

TopFeed is a news recommender built on the MIND dataset. A request for a
user's feed goes through these stages:

1. Retrieval: the user's clicks are averaged into an embedding, nearest items
   are found with pgvector, and exploration and popular items are merged in.
2. Reranking: a learned model scores each candidate.
3. Diversification: a greedy pass picks the feed against the user's
   interest profile ("ToP", tree of preferences).
4. Explanation: each picked item gets reason tags.
5. Rollout and metrics: a canary rollout assigns a model version and can roll
   it back on a bad metric; metrics are recorded for the response.

Offline scripts build the interest profiles and the reranker training set,
compute daily metrics, and load the MIND files. A fresh-content job ingests
RSS items and updates interest profiles incrementally.

This project models the deterministic core of all of these, one Dafny module
per source file:

| module | file | models |
|---|---|---|
| `DiversifyTop` | diversify_top.dfy | `apps/backend/app/services/diversify_top.py` |
| `Explain` | explain.dfy | `apps/backend/app/services/explain.py` |
| `Rollout` | rollout.dfy | `apps/backend/app/services/rollout.py` |
| `RoutesRetrieval` | routes_retrieval.dfy | `apps/backend/app/api/routes_retrieval.py` |
| `RetrievalPgvector` | retrieval_pgvector.dfy | `apps/backend/app/services/retrieval_pgvector.py` |
| `Reranker` | reranker.dfy | `apps/backend/app/services/reranker.py` |
| `BuildTop` | build_top.dfy | `ml/scripts/build_top.py` |
| `FreshIngest` | fresh_ingest.dfy | `apps/backend/app/services/fresh_ingest.py` |
| `DailyMetrics` | daily_metrics.dfy | `ml/scripts/compute_daily_metrics.py` |
| `EvalDiversification` | eval_diversification.dfy | `ml/scripts/eval_diversification.py` |
| `IngestMind` | ingest_mind.dfy | `ml/scripts/ingest_mind_to_postgres.py` |
| `RerankerDataset` | reranker_dataset.dfy | `ml/scripts/build_reranker_dataset.py` |
| `RoutesEvents` | routes_events.dfy | `apps/backend/app/api/routes_events.py` and `insert_events` of `apps/backend/app/db.py` |
| `Observability` | metrics.dfy | `apps/backend/app/observability/metrics.py` |
| `ModuleImports` | module_imports.dfy | the `from app.services.reranker import ...` statements of `apps/backend/app/api/routes_retrieval.py` and `ml/scripts/eval_diversification.py` |

Shared modules:

- `Wrappers`: `Option` for Python's `None`, and `Result`.
- `Text`: Python string operations on `seq<char>`: `strip`, `split`, `join`, an ASCII `lower`, and an `int()` for signed ASCII decimals.
- `Lists`: Python slicing, distinctness, dicts built from pairs.
- `Numeric`: sums, min/max, `ceil`, clamping, and the axioms of `exp`/`sqrt`.
- `Sorting`: the stable descending sort behind every `sort(key=..., reverse=True)`.
- `FeedTypes`: the feed item dict.

Conventions used throughout:

- **Python floats are `real`.** Rounding is not modelled.
- **Python `int` is unbounded `int`.** This is the same as Python.
- **SQL queries are inputs.**
  - A query that is read once becomes the sequence of rows it returns.
  - A query the code issues repeatedly becomes a function parameter, for example the retrieval queries of the `Db` record in `RoutesRetrieval`.
  - Where the code relies on a property of a query, it is stated as a `requires` on that parameter. For example, vector results are distinct and avoid the excluded ids.
- **Code outside these files becomes function parameters.** This covers `sha256`, `exp`, `sqrt`, `strptime`, `np.fromstring`, `float()`, the reranker model's `predict_proba`, the cosine similarity used by the metrics, the process environment and the current time. Each comes with the axioms the model needs.
- **State the code updates in place is a `class`.** Methods name it in `modifies`:
  - the `rollout_config` table: `Rollout.RolloutStore`;
  - the items table: `FreshIngest.ItemsTable`;
  - the ToP tables and watermark: `FreshIngest.TopTables`;
  - the staging tables: `IngestMind.Staging`;
  - the events table: `RoutesEvents.EventStore`;
  - `daily_feed_metrics`: `DailyMetrics.DailyMetricsTable`;
  - the Prometheus registry: `Observability.FeedMetrics`;
  - the candidate list whose `_selected` flags `diversify_greedy` sets: an `array`.
- **Loops in the source are `while` loops in methods.** Each method is proved against a function that specifies it; the properties are proved about that function as lemmas.

## Model

| member | source | states |
|---|---|---|
| DiversifyTop.Scale | apps/backend/app/services/diversify_top.py:17 | one output per value, each `(v - lo) / (hi - lo)` |
| DiversifyTop.ScaleInUnit | apps/backend/app/services/diversify_top.py:13-17 | between the bounds every scaled value lies in [0, 1], `lo` maps to 0 and `hi` to 1 |
| DiversifyTop.ScaleKeepsOrder | apps/backend/app/services/diversify_top.py:13-17 | scaling never reverses the order of two values |
| DiversifyTop.NormalizeScores | apps/backend/app/services/diversify_top.py:10-17 | keeps the length (empty to empty); constant input gives all zeros; otherwise all results are in [0, 1], the minimum maps to 0, the maximum to 1; order is kept |
| DiversifyTop.RelShare | apps/backend/app/services/diversify_top.py:57-66 | the relevance share `1 - 0.7·l` of the clamped level lies in [0.3, 1] |
| DiversifyTop.ExploreShare | apps/backend/app/services/diversify_top.py:57-69 | the exploration share `0.3 + 0.7·l` of the clamped level lies in [0.3, 1] |
| DiversifyTop.ComputeWeights | apps/backend/app/services/diversify_top.py:56-71 | level ≤ 0 gives `(w_rel_base, 0, 0, 0)`; otherwise, with `l` clamped to [0, 1], relevance gets `base·(1 − 0.7·l)` and the three others `base·(0.3 + 0.7·l)` |
| DiversifyTop.SharesShift | apps/backend/app/services/diversify_top.py:57-69 | a higher level never raises the relevance share and never lowers the exploration share |
| DiversifyTop.RelWeightFalls | apps/backend/app/services/diversify_top.py:66 | with a non-negative base, the relevance weight does not rise with the level |
| DiversifyTop.ExploreWeightRises | apps/backend/app/services/diversify_top.py:67-69 | with a non-negative base, each exploration weight does not fall with the level |
| DiversifyTop.WeightsShiftWithLevel | apps/backend/app/services/diversify_top.py:56-71 | across the level-0 branch too: a higher level never raises `w_rel` and never lowers `w_top`, `w_rep`, `w_cov` |
| DiversifyTop.RowScores | apps/backend/app/services/diversify_top.py:30-36 | the `scores` list: one `float(score or 0.0)` per row, in row order |
| DiversifyTop.RowKeys | apps/backend/app/services/diversify_top.py:33 | the `(category or "", subcategory or "")` key of every row, in order |
| DiversifyTop.DistinctKeys | apps/backend/app/services/diversify_top.py:30-35 | `node_map`'s key order: distinct, and exactly the keys of the rows |
| DiversifyTop.Positional | apps/backend/app/services/diversify_top.py:39-41 | the map sending the j-th key to the j-th value; its keys are exactly the listed keys |
| DiversifyTop.PositionalInUnit | apps/backend/app/services/diversify_top.py:39-41 | values from [0, 1] stay in [0, 1] |
| DiversifyTop.FillPositional | apps/backend/app/services/diversify_top.py:39-41 | the `enumerate(node_map.keys())` loop builds exactly `Positional(keys, normalized)` |
| DiversifyTop.LoadUserTopNodesAsWritten | apps/backend/app/services/diversify_top.py:30-43 | the code as written: the distinct keys receive the normalised per-ROW scores position by position |
| DiversifyTop.TopNodeMap | apps/backend/app/services/diversify_top.py:20-43 | the intended map: its keys are exactly the rows' keys and every value lies in [0, 1] |
| DiversifyTop.FoldNodeRow | apps/backend/app/services/diversify_top.py:32-36 | one pass of the row loop: the key is remembered on first sight and the latest score overwrites the map entry |
| DiversifyTop.LoadUserTopNodes | apps/backend/app/services/diversify_top.py:20-43 | the loops with the normalisation taken over `node_map`'s values give `TopNodeMap` |
| DiversifyTop.DuplicateKeyMisaligns | apps/backend/app/services/diversify_top.py:35-41 | rows (a,x)=1, (a,x)=5, (b,y)=3: as written, (a,x) gets bonus 0.0 and (b,y) 1.0; corrected, (a,x) gets 1.0 and (b,y) 0.0 |
| DiversifyTop.DistinctRowsAgree | apps/backend/app/services/diversify_top.py:30-41 | when no key repeats, the key list is the row keys and the node values are the row scores, so both forms agree |
| DiversifyTop.Cands | apps/backend/app/services/diversify_top.py:109-135 | one selection view per candidate: key, relevance, top bonus (0 for an unknown node), `_selected` flag |
| DiversifyTop.RedundancyCoverageSplit | apps/backend/app/services/diversify_top.py:123-133 | with a subcategory, penalty 1.0 exactly when gain is not 1.0; with only a category, penalty + gain = 0.5; with neither, both 0 |
| DiversifyTop.GreedyRunRespectsCaps | apps/backend/app/services/diversify_top.py:104-173 | a greedy run picks no candidate twice, none already `_selected`, at most `max_cat` per category and at most `max_subcat` per subcategory |
| DiversifyTop.BestUnique | apps/backend/app/services/diversify_top.py:144-146 | strict `>` makes the best next pick unique (the earliest of the maxima) |
| DiversifyTop.GreedyRunDeterministic | apps/backend/app/services/diversify_top.py:104-173 | two greedy runs of the same length are the same run |
| DiversifyTop.TracksStep | apps/backend/app/services/diversify_top.py:165-173 | recording a pick (mark, sets, counters) keeps the bookkeeping equal to what the picks imply |
| DiversifyTop.ScoreCandidate | apps/backend/app/services/diversify_top.py:110-142 | the candidate is eligible exactly when unmarked and under both caps; its breakdown is then the score the picks so far imply |
| DiversifyTop.ScanBest | apps/backend/app/services/diversify_top.py:105-156 | `None` exactly when nothing is eligible; otherwise the eligible candidate of maximal total, earliest on ties, with its breakdown |
| DiversifyTop.RecordPick | apps/backend/app/services/diversify_top.py:165-173 | after the pick, marks, selected sets and counts are those of the extended pick list |
| DiversifyTop.SelectGreedy | apps/backend/app/services/diversify_top.py:98-173 | a greedy run of at most `min(k, n)` picks that stops early only when nothing is eligible; breakdowns and selected sets match the picks |
| DiversifyTop.UpperSimsCount | apps/backend/app/services/diversify_top.py:191-192 | the upper triangle holds n(n−1)/2 similarities |
| DiversifyTop.IldProxyOfPairs | apps/backend/app/services/diversify_top.py:185-193 | with two or more vectors the upper triangle is non-empty and `ild_proxy = 1 − mean(upper)` |
| DiversifyTop.Vectors | apps/backend/app/services/diversify_top.py:184 | the embeddings found for the selected items; no more than the items |
| DiversifyTop.MarkSelected | apps/backend/app/services/diversify_top.py:158-167 | one decorated copy per pick in pick order; `_selected` set on exactly the picked candidates, every other entry unchanged |
| DiversifyTop.Choose | apps/backend/app/services/diversify_top.py:84-173 | the selection over normalised reranker scores, the corrected interest map `TopNodeMap`, the level's weights and caps is a maximal greedy run; it agrees with the code as written when no category/subcategory key repeats (`DistinctRowsAgree`) |
| DiversifyTop.DiversifyGreedy | apps/backend/app/services/diversify_top.py:74-201 | over the corrected interest map (see Findings): empty input gives `[]` and zero metrics; otherwise a greedy run of at most `min(k, n)` decorated copies; unique counts = distinct selected categories and subcategories; `ild_proxy` 0 for ≤ 1 item; only `_selected` changes in the input |
| Explain.SortedAtCounts | apps/backend/app/services/explain.py:17-19 | the value at sorted rank `idx+1` is reached by at least `idx+1` values and exceeded by at most `idx` |
| Explain.TopPercentThreshold | apps/backend/app/services/explain.py:14-19 | 1.0 on empty input; otherwise one of the values, reached by at least `max(1, ceil(n·p))` values and exceeded by fewer |
| Explain.RankIndex | apps/backend/app/services/explain.py:18 | the index `max(0, ceil(n·p) − 1)` is in range and one below the rank |
| Explain.Column | apps/backend/app/services/explain.py:91-94 | one entry per item, that item's field, in order |
| Explain.NormsOf | apps/backend/app/services/explain.py:91-102 | the four normalised columns have one entry per item |
| Explain.TagIf | apps/backend/app/services/explain.py:112-122 | a tag is present exactly when its rule holds |
| Explain.ReasonTagsIff | apps/backend/app/services/explain.py:112-122 | each of the five tags is present exactly when its rule holds |
| Explain.BuildExplanations | apps/backend/app/services/explain.py:84-149 | one explained copy per ranked item, in order |
| Explain.ExplainEach | apps/backend/app/services/explain.py:104-147 | the loop produces `ExplainAt` for every index |
| Explain.ExplainAtCopies | apps/backend/app/services/explain.py:143-146 | an explained item is its input item with only `is_preferred` and `explanation` changed; `is_preferred` is set when the id is preferred |
| Explain.ExplainAtTags | apps/backend/app/services/explain.py:104-141 | the explanation's top path and method fall back as the code does; each tag holds exactly when its rule does on the normalised columns |
| Explain.MostRelevantTagged | apps/backend/app/services/explain.py:96-114 | the most relevant item is always tagged `relevant_to_you` |
| Explain.NormalizedMax | apps/backend/app/services/explain.py:96-99 | normalising keeps a maximum maximal |
| Explain.MaxMeetsThreshold | apps/backend/app/services/explain.py:101 | a maximum value reaches the top-percent threshold |
| Explain.DistinctIds | apps/backend/app/services/explain.py:48-52 | distinct ids, exactly the truthy click ids |
| Explain.CollectRecentIds | apps/backend/app/services/explain.py:48-54 | the loop with its early `break` gives `RecentIds` |
| Explain.RecentIdsStop | apps/backend/app/services/explain.py:48-54 | stopping right after the prefix reaches the limit keeps exactly its distinct ids |
| Explain.RecentIdsEnd | apps/backend/app/services/explain.py:48-54 | never reaching the limit keeps every distinct id |
| Explain.RecentIdsShape | apps/backend/app/services/explain.py:48-54 | kept ids are distinct truthy click ids in first-seen order, at most `max(limit, 1)` of them |
| Explain.LoadRecentClicks | apps/backend/app/services/explain.py:45-64 | one record per kept id, in order, with the table's title (`None` if missing) |
| Explain.StatsByPath | apps/backend/app/services/explain.py:32-41 | a path is a key exactly when some row with a category has that path |
| Explain.StatsByPathLast | apps/backend/app/services/explain.py:36-41 | a path maps to the statistics of the last row under it |
| Explain.LoadTopNodeStats | apps/backend/app/services/explain.py:22-42 | the loop builds `StatsByPath` |
| Rollout.BoolFromValueTrue | apps/backend/app/services/rollout.py:12-13 | `" TRUE "` reads as true: case and surrounding whitespace do not matter |
| Rollout.StripPaddedTrue | apps/backend/app/services/rollout.py:13 | stripping `" TRUE "` gives `"TRUE"` |
| Rollout.BoolFromValueFalse | apps/backend/app/services/rollout.py:12-13 | `"false"` reads as false |
| Rollout.BoolFromValuePadded | apps/backend/app/services/rollout.py:12-13 | for every word without whitespace at its ends and any whitespace padding, the value reads as true exactly when the lowered word is one of `1`, `true`, `yes`, `y`, `on` |
| Rollout.ParseIntFive | apps/backend/app/services/rollout.py:18 | `int("5")` is 5 |
| Rollout.IntFromValue | apps/backend/app/services/rollout.py:16-20 | the parsed integer, or the default when parsing fails |
| Rollout.GetEnvDefault | apps/backend/app/services/rollout.py:32-36 | the variable's value, or the default when unset or empty |
| Rollout.Ctr | apps/backend/app/services/rollout.py:170 | 0 without impressions; in [0, 1] when clicks ≤ impressions |
| Rollout.StatsOfRow | apps/backend/app/services/rollout.py:166-177 | a row's entry: NULL counts read as 0, ctr from them, novelty passed on |
| Rollout.FoldStatsCanary | apps/backend/app/services/rollout.py:149-179 | the last canary-version row decides the canary entry; with none it stays empty |
| Rollout.FoldStatsControl | apps/backend/app/services/rollout.py:149-179 | the last row of any other version decides the control entry; with none it stays empty |
| Rollout.FoldStatsControlAt | apps/backend/app/services/rollout.py:166-177 | the control entry is that of the last non-canary row |
| Rollout.FoldStatsNoControl | apps/backend/app/services/rollout.py:149-179 | only canary rows leave the control entry empty |
| Rollout.RolloutStatsForWindow | apps/backend/app/services/rollout.py:119-179 | the loop over the rows computes `FoldStats` |
| Rollout.AssignVariantCases | apps/backend/app/services/rollout.py:102-110 | the variant is control or canary; disabled or percent ≤ 0 gives control; enabled with percent ≥ 100 gives canary |
| Rollout.AssignVariantIgnoresRequest | apps/backend/app/services/rollout.py:102-110 | a user with an id gets the same variant for any request id |
| Rollout.ModelVersionForVariant | apps/backend/app/services/rollout.py:113-116 | canary maps to the canary version, anything else to control |
| Rollout.CtrDrop | apps/backend/app/services/rollout.py:199-201 | 0 when control CTR is 0; ≤ 0 when canary does at least as well; ≤ 1 with a non-negative canary CTR |
| Rollout.NoveltyDelta | apps/backend/app/services/rollout.py:203-205 | present exactly when both novelties are, and then canary − control |
| Rollout.GuardOf | apps/backend/app/services/rollout.py:199-216 | rollback recommended exactly when both thresholds trip; auto-disabled exactly when rollback, auto-disable and enabled all hold |
| Rollout.GuardDecision | apps/backend/app/services/rollout.py:199-216 | the decision steps compute `GuardOf` |
| Rollout.GuardScenario | apps/backend/app/services/rollout.py:203-211 | CTR 0.20 → 0.15 and novelty 0.10 → 0.25 give drop 0.25 and delta 0.15, which trips thresholds of 0.1 |
| Rollout.NoRollbackWithoutNovelty | apps/backend/app/services/rollout.py:203-211 | no rollback unless both novelties exist and both thresholds trip |
| Rollout.RolloutStore.constructor | apps/backend/app/services/rollout.py:39-49 | a store holding the given table |
| Rollout.RolloutStore.GetRolloutValue | apps/backend/app/services/rollout.py:39-49 | the stored value; the default for a missing key, a NULL value or a failing read |
| Rollout.RolloutStore.LoadRolloutConfig | apps/backend/app/services/rollout.py:66-99 | the loaded percent always lies in [0, 100] |
| Rollout.RolloutStore.DefaultConfig | apps/backend/app/services/rollout.py:66-99 | with nothing stored or set: canary off at 5%, versions v1/v2, no auto-disable |
| Rollout.RolloutStore.StoredPercentRead | apps/backend/app/services/rollout.py:39-73 | a percent stored as the decimal text of `n` wins over the environment and is loaded as `min(n, 100)` |
| Rollout.RolloutStore.SetRolloutValue | apps/backend/app/services/rollout.py:52-63 | upserts exactly one key |
| Rollout.RolloutStore.CheckRolloutGuard | apps/backend/app/services/rollout.py:182-237 | the report over the window's statistics; `CANARY_ENABLED` becomes `"false"` exactly when auto-disabled, otherwise the table is unchanged |
| Rollout.RolloutStore.UpdateRolloutConfig | apps/backend/app/services/rollout.py:240-243 | every given key is written; other keys are kept; no other key appears; the updates are returned |
| RoutesRetrieval.GetIntEnv | apps/backend/app/api/routes_retrieval.py:23-27 | the default when unset or empty, else `int(value)`, `None` where it raises |
| RoutesRetrieval.GetFloatEnv | apps/backend/app/api/routes_retrieval.py:30-34 | the default when unset or empty, else `float(value)` |
| RoutesRetrieval.PoolsFor | apps/backend/app/api/routes_retrieval.py:72-94 | `candidate_pool_n = max(top_n, pool) ≥ top_n`; explore in [0, pool/2], 0 for a ratio ≤ 0; `vector_pool_n = max(pool − explore, 1) ≥ 1` |
| RoutesRetrieval.SettingsFor | apps/backend/app/api/routes_retrieval.py:71-77 | parsed settings keep the pool bounds, or name the variable that failed to parse |
| RoutesRetrieval.DefaultSettings | apps/backend/app/api/routes_retrieval.py:71-77 | with nothing set and a small `top_n`: pools 200/40/160, half-life 7, recent window 200 |
| RoutesRetrieval.AppendUnseenFacts | apps/backend/app/api/routes_retrieval.py:108-111 | appending keeps the list as a prefix; only unseen extras are added; `seen` grows by every extra's id; distinctness and `ids ⊆ seen` are kept |
| RoutesRetrieval.AppendUnseenLoop | apps/backend/app/api/routes_retrieval.py:108-111 | the loop computes `AppendUnseen` |
| RoutesRetrieval.MergedStartsWithVector | apps/backend/app/api/routes_retrieval.py:96-118 | the vector results come first in their order; without exploration they are the whole list |
| RoutesRetrieval.StageUnique | apps/backend/app/api/routes_retrieval.py:98-118 | one append stage keeps ids distinct and keeps excluded ids out |
| RoutesRetrieval.MergedUnique | apps/backend/app/api/routes_retrieval.py:96-118 | given distinct, non-excluded vector results, the merged list is distinct with no excluded id |
| RoutesRetrieval.MergeCandidates | apps/backend/app/api/routes_retrieval.py:96-118 | the handler's merge computes `Merged` |
| RoutesRetrieval.PoolOf | apps/backend/app/api/routes_retrieval.py:120-121 | the pool holds at most `candidate_pool_n` items |
| RoutesRetrieval.Diversify | apps/backend/app/api/routes_retrieval.py:124-138 | `score_candidates` gives one score per item and those scores, normalised, feed the greedy selection (`DiversifiedAs`): the picks are a greedy run over the candidates with the user's interest map, `min(top_n, len(items))` of them unless nothing more is eligible; the output is the picked items decorated in pick order, with the metrics' category counts of the picks; at most `top_n` items, and none for an empty pool |
| RoutesRetrieval.Personalize | apps/backend/app/api/routes_retrieval.py:120-141 | `PersonalizedAs`: with `rerank` on, the items are `rerank`'s result (`Reranker.RerankedAs`) and its failure is a 500; with it off, the pool; then with `diversify` on, the response is the diversification of those items (`DiversifiedAs`) with its metrics, else their first `top_n`; at most `top_n` personalized items |
| RoutesRetrieval.RetrieveCandidates | apps/backend/app/api/routes_retrieval.py:70-141 | bad settings are reported; no user vector gives the popular list with `popular_fallback`; mismatched embeddings give a 500; otherwise the personalized branch of `PersonalizedAs` over the truncated merged pool `PoolOf`, at most `top_n` items |
| RetrievalPgvector.ParseTime | apps/backend/app/services/retrieval_pgvector.py:11-17 | `None` for missing, empty or unparseable text, else the parsed time |
| RetrievalPgvector.ParseVector | apps/backend/app/services/retrieval_pgvector.py:24-34 | `None` for NULL; `None` for text exactly when it is empty after stripping brackets; arrays pass through |
| RetrievalPgvector.FallbackOrder | apps/backend/app/services/retrieval_pgvector.py:78-84 | a permutation of the clicks, sorted by descending integer impression id (non-integers as 0), stable |
| RetrievalPgvector.PermutedDistinct | apps/backend/app/services/retrieval_pgvector.py:78-85 | reordering distinct ids keeps them distinct |
| RetrievalPgvector.FallbackAgeIsRank | apps/backend/app/services/retrieval_pgvector.py:78-85 | when some time is unparseable, a click's age is its rank in the fallback order |
| RetrievalPgvector.ElapsedAgeOfClick | apps/backend/app/services/retrieval_pgvector.py:86-91 | when every time parses, a click's age is `max(days since it, 0)` |
| RetrievalPgvector.FillElapsedAges | apps/backend/app/services/retrieval_pgvector.py:88-91 | the loop fills `age_map` from the parsed times |
| RetrievalPgvector.AgeMapShape | apps/backend/app/services/retrieval_pgvector.py:78-91 | every click has an age and none is negative |
| RetrievalPgvector.ClickWeightPositive | apps/backend/app/services/retrieval_pgvector.py:101 | every weight is positive: 1 without a positive half-life, else the decay |
| RetrievalPgvector.DebugOf | apps/backend/app/services/retrieval_pgvector.py:97-111 | `used` exactly when an embedding exists; weight 0.0 when unused |
| RetrievalPgvector.UsedEmbeddings | apps/backend/app/services/retrieval_pgvector.py:112-114 | the embeddings of the clicks that have one, in order |
| RetrievalPgvector.UsedWeights | apps/backend/app/services/retrieval_pgvector.py:112-114 | the weights of the same clicks, one per embedding |
| RetrievalPgvector.UsedEmbeddingsEmpty | apps/backend/app/services/retrieval_pgvector.py:112-117 | none used exactly when no click has an embedding |
| RetrievalPgvector.UsedWeightsPositive | apps/backend/app/services/retrieval_pgvector.py:101-121 | the used weights sum to a positive total whenever one is used |
| RetrievalPgvector.AverageOfCopies | apps/backend/app/services/retrieval_pgvector.py:122-124 | averaging copies of one embedding gives it back |
| RetrievalPgvector.UserVectorOfCases | apps/backend/app/services/retrieval_pgvector.py:116-124 | with positive weights: no vector exactly when nothing was gathered; a single embedding is the vector |
| RetrievalPgvector.UserVectorMissing | apps/backend/app/services/retrieval_pgvector.py:59-124 | the vector is `None` exactly when no click has an embedding |
| RetrievalPgvector.UserVectorSingle | apps/backend/app/services/retrieval_pgvector.py:59-124 | a single used embedding is returned unchanged |
| RetrievalPgvector.WeighClicks | apps/backend/app/services/retrieval_pgvector.py:93-114 | one debug entry per click, in order, and the weights and embeddings of clicks with embeddings |
| RetrievalPgvector.BuildUserVector | apps/backend/app/services/retrieval_pgvector.py:59-124 | empty clicks give `(None, [])`; otherwise one debug entry per click and the weighted average or `None` |
| RetrievalPgvector.PerCategory | apps/backend/app/services/retrieval_pgvector.py:209 | at least 1, and enough per category for `max_nodes` categories to cover `top_n` |
| RetrievalPgvector.UnderexploredPlan | apps/backend/app/services/retrieval_pgvector.py:203-209 | no query exactly when `top_n ≤ 0`; otherwise a query with limit `top_n`, at least one item per category and the exclusions passed on |
| RetrievalPgvector.RetrieveUnderexplored | apps/backend/app/services/retrieval_pgvector.py:203-268 | `[]` for `top_n ≤ 0`, and never more than `top_n` rows |
| RetrievalPgvector.RecentSeenNewsIds | apps/backend/app/services/retrieval_pgvector.py:271-288 | `[]` for `m ≤ 0`; otherwise at most `m` ids, a prefix of the history in its order |
| Reranker.FallbackText | apps/backend/app/services/reranker.py:78-79 | the item table's text, else the candidate's, else `""` |
| Reranker.CtrOf | apps/backend/app/services/reranker.py:84-86 | the table's CTR for the key, else `global_ctr`, else 0.0 |
| Reranker.CategoryMatch | apps/backend/app/services/reranker.py:88 | 1 exactly when the category is non-empty and among the user's categories, else 0 |
| Reranker.Recency | apps/backend/app/services/reranker.py:90-92 | never negative; 0 without a last click |
| Reranker.Cosine | apps/backend/app/services/reranker.py:94-99 | 0 when a vector is missing or the norm product is 0; raises (`None`) exactly on mismatched lengths |
| Reranker.ComputeFeatures | apps/backend/app/services/reranker.py:75-110 | exactly 8 features in the source's order: position, title/abstract lengths, the two CTRs, category match, recency, cosine |
| Reranker.LastClickTime | apps/backend/app/services/reranker.py:123-127 | `None` exactly when no time parses; otherwise the maximum parsed time, itself one of them |
| Reranker.FindLastClickTime | apps/backend/app/services/reranker.py:123-127 | the running-maximum loop computes `LastClickTime` |
| Reranker.CollectUserCategories | apps/backend/app/services/reranker.py:132-137 | the truthy categories of the clicked items, none of them empty |
| Reranker.FeatureRows | apps/backend/app/services/reranker.py:139-144 | when no row raises, one row per candidate |
| Reranker.FeatureRowsAt | apps/backend/app/services/reranker.py:139-144 | row `i` is `compute_features` of candidate `i` at 1-based rank `i+1` |
| Reranker.BuildFeatures | apps/backend/app/services/reranker.py:139-144 | the loop computes `FeatureRows` |
| Reranker.NoFeaturesAfterFailure | apps/backend/app/services/reranker.py:139-144 | one raising row makes the whole list raise |
| Reranker.Rescored | apps/backend/app/services/reranker.py:148-152 | each candidate copied with only its score replaced |
| Reranker.ScoreAndSort | apps/backend/app/services/reranker.py:146-154 | a permutation of the rescored candidates, non-increasing by score, stable on ties |
| Reranker.Rerank | apps/backend/app/services/reranker.py:113-155 | input returned as is without a model or without a user vector; mismatched embedding lengths raise; no candidates raise, as `predict_proba` rejects the empty 1-D array; otherwise a stable non-increasing permutation of the rescored candidates (all stated as `RerankedAs`) |
| BuildTop.DecayWeight | ml/scripts/build_top.py:57-60 | 1.0 when the half-life is ≤ 0; positive for a true exponential |
| BuildTop.DecayWeightAtMostOne | ml/scripts/build_top.py:57-60 | a non-negative age weighs at most 1 |
| BuildTop.DecayWeightMonotone | ml/scripts/build_top.py:57-60 | an older impression never weighs more |
| BuildTop.RowAges | ml/scripts/build_top.py:124-132 | one age per row, none negative |
| BuildTop.AgeMap | ml/scripts/build_top.py:124-132 | `age_map`: its keys are exactly the rows' impression ids |
| BuildTop.AgeMapValues | ml/scripts/build_top.py:124-132 | an id's age is non-negative: the index of its last row when some time does not parse, else the days from that row to the latest time |
| BuildTop.Observations | ml/scripts/build_top.py:144-146 | one weighted observation per row, in order |
| BuildTop.ObservationWeights | ml/scripts/build_top.py:144-146 | every weight lies in (0, 1] |
| BuildTop.PartitionTotal | ml/scripts/build_top.py:148-184 | grouping rows by any key and adding the groups gives the counters of all rows |
| BuildTop.TotalCounts | ml/scripts/build_top.py:148-152 | every row is one exposure, and one click when clicked |
| BuildTop.TotalBounds | ml/scripts/build_top.py:148-184 | with non-negative weights, clicks ≤ exposures and interest weight ≤ exposure weight |
| BuildTop.Accumulate | ml/scripts/build_top.py:144-184 | the accumulation loop builds a tree that agrees with all rows |
| BuildTop.AddObs | ml/scripts/build_top.py:145-184 | one row adds its counters to the root, its category and its subcategory |
| BuildTop.TreeOfMatches | ml/scripts/build_top.py:148-184 | the accumulated tree agrees with the rows at every node |
| BuildTop.TreeSound | ml/scripts/build_top.py:148-184 | at every node, clicks ≤ exposures and interest weight ≤ exposure weight |
| BuildTop.RootIsSumOfCategories | ml/scripts/build_top.py:148-168 | the root counters are the sum of the category counters |
| BuildTop.CategoryIsSumOfSubcategories | ml/scripts/build_top.py:163-184 | each category's counters are the sum of its subcategories' |
| BuildTop.RootCounts | ml/scripts/build_top.py:148-152 | root exposures = number of rows, root clicks = number of clicked rows |
| BuildTop.Finalize | ml/scripts/build_top.py:186-191 | `ctr·exposures = clicks` (0 without exposures); `score·(exposure_weight + 1e-6) = interest_weight`; both in range when clicks ≤ exposures |
| BuildTop.SubFlatsShape | ml/scripts/build_top.py:202-218 | one well-formed `"cat/sub"` node per non-empty subcategory key; empty keys skipped |
| BuildTop.FlattenedShape | ml/scripts/build_top.py:195-235 | every node is well formed and of a listed category; each category's node and each non-empty subcategory's `"cat/sub"` node are present |
| BuildTop.CategoryNodeOf | ml/scripts/build_top.py:220-222 | a finalised category whose subcategories are ranked by descending score |
| BuildTop.RankedFlat | ml/scripts/build_top.py:241-243 | the flattened nodes, reordered by non-increasing underexplored score |
| BuildTop.Assemble | ml/scripts/build_top.py:237-253 | finalised root; the category nodes reordered by non-increasing score; `min(20, #nodes)` paths, those of the best-ranked nodes in order |
| BuildTop.FlattenCategory | ml/scripts/build_top.py:198-235 | appends the category's subcategory nodes, then its own node |
| BuildTop.FlattenTree | ml/scripts/build_top.py:195-235 | the flattening loop gives the flattened list of every category in order |
| BuildTop.ComputeTop | ml/scripts/build_top.py:104-255 | empty rows give a zero root and nothing else; otherwise the tree is sound and the result is the assembled profile and the flattened nodes |
| FreshIngest.NormalizeText | apps/backend/app/services/fresh_ingest.py:34-37 | `None`/`""` give `""`; no result starts or ends with whitespace |
| FreshIngest.NormalizeTextShape | apps/backend/app/services/fresh_ingest.py:34-37 | only single spaces between words; normalising twice equals once |
| FreshIngest.KeptPairs | apps/backend/app/services/fresh_ingest.py:40-46 | a pair is kept exactly when its key is not a tracking key: `utm_*` in any case, `ref` or `fbclid` |
| FreshIngest.KeptPairsAppend | apps/backend/app/services/fresh_ingest.py:43-44 | filtering a query in pieces equals filtering it whole, so kept pairs keep their order |
| FreshIngest.Canonicalize | apps/backend/app/services/fresh_ingest.py:40-46 | fragment cleared; scheme, host, path and params kept; a query pair is kept exactly when it is not a tracking pair |
| FreshIngest.CanonicalizeIdempotent | apps/backend/app/services/fresh_ingest.py:40-46 | cleaning a clean URL changes nothing |
| FreshIngest.KeptPairsTwice | apps/backend/app/services/fresh_ingest.py:43-44 | filtering twice equals filtering once |
| FreshIngest.NewsIdFromHash | apps/backend/app/services/fresh_ingest.py:53-54 | `"FRESH_"` followed by the first `min(12, len)` characters of the hash |
| FreshIngest.NewsIdCollision | apps/backend/app/services/fresh_ingest.py:53-54 | two hashes give the same id exactly when their first 12 characters agree |
| FreshIngest.FirstMatch | apps/backend/app/services/fresh_ingest.py:57-157 | the first rule whose keyword occurs in the text; none before it matches |
| FreshIngest.MapCategory | apps/backend/app/services/fresh_ingest.py:57-157 | the first matching tag rule wins; text rules only when no tag rule matches; otherwise `("unknown", "unknown")` |
| FreshIngest.NoTagsUsesText | apps/backend/app/services/fresh_ingest.py:57-157 | without tags the mapping comes from the title and description |
| FreshIngest.TagRuleDecides | apps/backend/app/services/fresh_ingest.py:57-157 | once a tag rule matches, title and description play no part |
| FreshIngest.Hashes | apps/backend/app/services/fresh_ingest.py:238-242 | the non-empty URL hashes, in order |
| FreshIngest.LastWith | apps/backend/app/services/fresh_ingest.py:238-242 | the last item carrying a hash |
| FreshIngest.DedupOrder | apps/backend/app/services/fresh_ingest.py:238-242 | distinct non-empty hashes in first-seen order |
| FreshIngest.Deduped | apps/backend/app/services/fresh_ingest.py:238-242 | one item per distinct non-empty hash, the last given, in first-seen order |
| FreshIngest.StoredOf | apps/backend/app/services/fresh_ingest.py:246-278 | a new row takes the item's id, a conflicting one keeps the stored id; the other columns come from the item, marked fresh, empty category or subcategory as `"unknown"` |
| FreshIngest.UpsertedRows | apps/backend/app/services/fresh_ingest.py:246-278 | the keys are the stored hashes plus the items'; each item's hash holds its row; every other row stays |
| FreshIngest.CountNew | apps/backend/app/services/fresh_ingest.py:283-285 | how many hashes are not yet stored; at most all |
| FreshIngest.CountNewCard | apps/backend/app/services/fresh_ingest.py:283-285 | on distinct hashes, the size of the set of new ones |
| FreshIngest.UpsertCounts | apps/backend/app/services/fresh_ingest.py:283-285 | `(0, 0)` for no items; inserted + updated = the number of distinct non-empty hashes; inserted are those not stored, updated those stored |
| FreshIngest.ItemsTable.constructor | apps/backend/app/services/fresh_ingest.py:235-285 | a table holding the given rows |
| FreshIngest.ItemsTable.UpsertFreshItems | apps/backend/app/services/fresh_ingest.py:235-285 | returns `UpsertCounts` against the stored hashes; no items leave the table as it was, otherwise it becomes the upsert of the deduped items |
| FreshIngest.SplitCounts | apps/backend/app/services/fresh_ingest.py:283-285 | inserted are the new hashes, updated the rest |
| FreshIngest.CountsOfOrder | apps/backend/app/services/fresh_ingest.py:283-285 | counting over the dedup order gives the returned counts |
| FreshIngest.DedupedList | apps/backend/app/services/fresh_ingest.py:238-242 | the dict's values in key order |
| FreshIngest.DedupByHash | apps/backend/app/services/fresh_ingest.py:238-242 | the dedup loop builds the key order and the last item per hash |
| FreshIngest.TallyBounds | apps/backend/app/services/fresh_ingest.py:288-357 | every counter is at most the batch size; last 24h ≤ last 7 days ≤ with a date; each source counted by its occurrences |
| FreshIngest.SourcesTotal | apps/backend/app/services/fresh_ingest.py:288-357 | source counts add up to at most the batch size |
| FreshIngest.QualityBounds | apps/backend/app/services/fresh_ingest.py:288-357 | `total_items` is the batch size; all zeros for no items; every percentage in [0, 1], the 24h ≤ 7-day ≤ dated shares ordered; `duplicates_dropped = max(0, total − deduped)` |
| FreshIngest.ReportBounds | apps/backend/app/services/fresh_ingest.py:288-357 | the report's shares lie in [0, 1] |
| FreshIngest.ComputeQuality | apps/backend/app/services/fresh_ingest.py:288-357 | one pass over the batch, then the report |
| FreshIngest.OrUnknown | apps/backend/app/services/fresh_ingest.py:637-638 | the value if truthy, else `"unknown"`; never empty |
| FreshIngest.SubScore | apps/backend/app/services/fresh_ingest.py:641 | 0 with no exposures, else `clicks/(exposures + 1e-6)`, below 1 when clicks ≤ exposures |
| FreshIngest.CategoryOrder | apps/backend/app/services/fresh_ingest.py:631-656 | the categories in first-seen order, distinct |
| FreshIngest.AccOfShape | apps/backend/app/services/fresh_ingest.py:631-656 | one subcategory entry per row of the category; its counts at most the root's |
| FreshIngest.CategoriesPartitionRoot | apps/backend/app/services/fresh_ingest.py:631-656 | for clicks and for exposures, the categories sum to the root total |
| FreshIngest.CatEntryOf | apps/backend/app/services/fresh_ingest.py:683-690 | a finished category: its counts, CTR clicks/exposures (0 without exposures), `score·(exposures + 1e-6) = clicks`, and its subcategories reordered by non-increasing score |
| FreshIngest.Nodes | apps/backend/app/services/fresh_ingest.py:636-703 | one node per row, in row order, then one per category in first-seen order |
| FreshIngest.PathsOf | apps/backend/app/services/fresh_ingest.py:707-709 | `min(20, #nodes)` paths: those of the nodes ranked by score, in order |
| FreshIngest.LiveTopShape | apps/backend/app/services/fresh_ingest.py:631-727 | the root sums all rows and the categories sum to it; categories ranked by score; one node per row plus one per category; `min(20, #nodes)` paths; CTR and score 0 without exposures |
| FreshIngest.FoldRows | apps/backend/app/services/fresh_ingest.py:634-680 | the first loop builds the categories dict and the row nodes |
| FreshIngest.FoldRow | apps/backend/app/services/fresh_ingest.py:634-680 | one row: its category created on first sight, the row added, its node appended |
| FreshIngest.FinishCategories | apps/backend/app/services/fresh_ingest.py:682-703 | each category finished in dict order, its node after the row nodes |
| FreshIngest.AggregateUser | apps/backend/app/services/fresh_ingest.py:631-727 | the profile of a user's rows and the nodes to upsert |
| FreshIngest.WindowStart | apps/backend/app/services/fresh_ingest.py:598-602 | `now − window_hours` without a watermark, else the watermark |
| FreshIngest.TopsAfterWritten | apps/backend/app/services/fresh_ingest.py:729-780 | every user with rows ends with the profile of its rows |
| FreshIngest.TopsAfterKept | apps/backend/app/services/fresh_ingest.py:729-780 | every other user keeps what it had |
| FreshIngest.PutNodesContents | apps/backend/app/services/fresh_ingest.py:742-777 | the last node of each path is written; every other key is unchanged |
| FreshIngest.AfterStep | apps/backend/app/services/fresh_ingest.py:729-792 | one more user changes the results only if it has rows |
| FreshIngest.TopTables.constructor | apps/backend/app/services/fresh_ingest.py:584-593 | tables holding the given contents |
| FreshIngest.TopTables.EnsureWatermark | apps/backend/app/services/fresh_ingest.py:584-593 | a missing watermark row is created holding NULL and `None` is read; otherwise the stored value is read; profiles untouched |
| FreshIngest.TopTables.StoreUser | apps/backend/app/services/fresh_ingest.py:729-780 | the user's profile replaces the stored one, its nodes are upserted, their number is returned; the watermark is untouched |
| FreshIngest.TopTables.UpdateTopIncremental | apps/backend/app/services/fresh_ingest.py:596-792 | the window starts at the watermark (or `now − window_hours`); users with rows get their profiles and nodes, others are untouched; the summary counts users and nodes; the watermark becomes `now` |
| DailyMetrics.DateRange | ml/scripts/compute_daily_metrics.py:28-31 | the window ends today and starts `days − 1` days before |
| DailyMetrics.SortedCounts | ml/scripts/compute_daily_metrics.py:120 | the same number of counts and the same values, in non-decreasing order |
| DailyMetrics.SortedCountsPermutes | ml/scripts/compute_daily_metrics.py:120 | every count occurs as often in the sorted list as among the rows |
| DailyMetrics.NoveltyMap | ml/scripts/compute_daily_metrics.py:116-128 | empty without rows; its keys are exactly the rows' item ids |
| DailyMetrics.NoveltyMapAt | ml/scripts/compute_daily_metrics.py:116-128 | an item maps to the novelty of its last row |
| DailyMetrics.NoveltyRange | ml/scripts/compute_daily_metrics.py:122-128 | every novelty lies in [0, 1] |
| DailyMetrics.SmallestCountNovelty | ml/scripts/compute_daily_metrics.py:122-128 | the smallest count has novelty 1.0 |
| DailyMetrics.LargerCountLowerNovelty | ml/scripts/compute_daily_metrics.py:122-128 | a larger count has strictly lower novelty |
| DailyMetrics.NoveltyMapRange | ml/scripts/compute_daily_metrics.py:116-128 | every item's novelty lies in [0, 1] |
| DailyMetrics.PercentileTable | ml/scripts/compute_daily_metrics.py:122-127 | on sorted counts, the keys are exactly the counts and each maps to the percentile of its first rank |
| DailyMetrics.BuildNoveltyMap | ml/scripts/compute_daily_metrics.py:116-128 | the two loops compute `NoveltyMap` |
| DailyMetrics.ContributionWithin | ml/scripts/compute_daily_metrics.py:134-136 | with novelties in [0, 1], a row adds between 0 and its impressions |
| DailyMetrics.NoveltyByGroup | ml/scripts/compute_daily_metrics.py:131-142 | the impression-weighted mean per group; groups without impressions left out |
| DailyMetrics.WeightedBounds | ml/scripts/compute_daily_metrics.py:131-142 | the weighted sum lies between 0 and the impressions |
| DailyMetrics.UnknownItemsScoreZero | ml/scripts/compute_daily_metrics.py:134-136 | items missing from the map score 0 |
| DailyMetrics.NoveltyByGroupRange | ml/scripts/compute_daily_metrics.py:131-142 | every group's novelty lies in [0, 1] |
| DailyMetrics.TallyGroups | ml/scripts/compute_daily_metrics.py:133-137 | the first loop accumulates each group's totals |
| DailyMetrics.ComputeNovelty | ml/scripts/compute_daily_metrics.py:131-142 | the totals, then `NoveltyByGroup` |
| DailyMetrics.RepetitionRate | ml/scripts/compute_daily_metrics.py:197-199 | `None` without impressions, else `1 − unique/impressions` |
| DailyMetrics.Ctr | ml/scripts/compute_daily_metrics.py:223 | 0.0 without impressions, else clicks/impressions |
| DailyMetrics.RateOrNone | ml/scripts/compute_daily_metrics.py:224-225 | `None` without impressions, else count/impressions |
| DailyMetrics.CoverageMap | ml/scripts/compute_daily_metrics.py:194-204 | every group of the coverage rows; a later row wins |
| DailyMetrics.BuildCoverageMap | ml/scripts/compute_daily_metrics.py:194-204 | the first loop of `main` builds `CoverageMap` |
| DailyMetrics.MetricRows | ml/scripts/compute_daily_metrics.py:209-250 | one row per base row, in order |
| DailyMetrics.MetricRowEmptyCases | ml/scripts/compute_daily_metrics.py:209-250 | a group without impressions gets ctr 0 and no rates; one missing from the maps gets no coverage or novelty |
| DailyMetrics.BuildMetricRows | ml/scripts/compute_daily_metrics.py:209-250 | the second loop builds `MetricRows` |
| DailyMetrics.UpsertedKeys | ml/scripts/compute_daily_metrics.py:145-174 | every stored group is kept and exactly the rows' groups are added |
| DailyMetrics.DailyMetricsTable.constructor | ml/scripts/compute_daily_metrics.py:145-174 | a table holding the given rows |
| DailyMetrics.DailyMetricsTable.UpsertDailyMetrics | ml/scripts/compute_daily_metrics.py:145-174 | every row written under its group, others kept |
| DailyMetrics.DailyMetricsTable.ComputeDailyMetrics | ml/scripts/compute_daily_metrics.py:177-261 | returns the number of base rows; no base rows leave the table as it was, otherwise every metric row (built from the coverage map and the per-group novelty) is upserted |
| EvalDiversification.Gain | ml/scripts/eval_diversification.py:40 | `2^rel − 1`: positive exactly for a relevant item |
| EvalDiversification.DcgPositive | ml/scripts/eval_diversification.py:39-42 | a DCG is positive exactly when some entry is relevant |
| EvalDiversification.IdealHasRelevant | ml/scripts/eval_diversification.py:43 | the top `k > 0` of the ideal order hold a relevant item exactly when some item is relevant |
| EvalDiversification.IdealDcgZero | ml/scripts/eval_diversification.py:43-46 | the ideal DCG is 0 exactly when nothing is relevant or `k` keeps nothing |
| EvalDiversification.NdcgNonNegative | ml/scripts/eval_diversification.py:38-47 | nDCG is never negative |
| EvalDiversification.NdcgZeroCase | ml/scripts/eval_diversification.py:38-47 | nDCG is 0 when no item is relevant |
| EvalDiversification.FirstRelevant | ml/scripts/eval_diversification.py:50-54 | the first relevant position; everything before it irrelevant |
| EvalDiversification.Mrr | ml/scripts/eval_diversification.py:50-54 | `1/i` for the first relevant position `i ≤ k`, else 0; so 0 or in (0, 1] |
| EvalDiversification.MrrAtK | ml/scripts/eval_diversification.py:50-54 | the scan with its early return computes `Mrr` |
| EvalDiversification.SearchSortedRight | ml/scripts/eval_diversification.py:77 | the first index whose entry exceeds the value |
| EvalDiversification.SearchCountsAtMost | ml/scripts/eval_diversification.py:77 | on a sorted list the index counts the entries ≤ the value |
| EvalDiversification.PercentileShare | ml/scripts/eval_diversification.py:74-78 | on a non-empty sorted list, the share of entries ≤ the value; always in [0, 1] |
| EvalDiversification.PercentileMonotone | ml/scripts/eval_diversification.py:74-78 | the percentile does not decrease as the value grows |
| EvalDiversification.SearchMonotone | ml/scripts/eval_diversification.py:77 | the search index does not decrease as the value grows |
| EvalDiversification.IldLoops | ml/scripts/eval_diversification.py:96-112 | 0 for fewer than two embeddings; else the mean of `1 − sim` over counted pairs, 0 if none counts |
| EvalDiversification.DissimilarityBounds | ml/scripts/eval_diversification.py:106-110 | a counted pair's `1 − sim` lies in [0, 2] |
| EvalDiversification.IldRange | ml/scripts/eval_diversification.py:96-112 | with similarities in [−1, 1], the ILD lies in [0, 2] |
| EvalDiversification.PairCountAll | ml/scripts/eval_diversification.py:102-111 | with no zero-norm embedding, all `n(n−1)/2` pairs count |
| EvalDiversification.CoverageBounds | ml/scripts/eval_diversification.py:165-167 | at most 1.5 per item; 0 exactly when no item has a category or subcategory |
| IngestMind.FormatCell | ml/scripts/ingest_mind_to_postgres.py:125-126 | `None` is sent as `\N`, text as is |
| IngestMind.FormatRows | ml/scripts/ingest_mind_to_postgres.py:122-129 | one formatted line per row, in order |
| IngestMind.Fields | ml/scripts/ingest_mind_to_postgres.py:253 | a line always splits into at least one field |
| IngestMind.Padded | ml/scripts/ingest_mind_to_postgres.py:254-256 | at least `n` fields: the original ones, then `""` up to `n` |
| IngestMind.PadFields | ml/scripts/ingest_mind_to_postgres.py:254-256 | the padding loop computes `Padded` |
| IngestMind.Tokens | ml/scripts/ingest_mind_to_postgres.py:336-337 | every token is non-empty and holds no space |
| IngestMind.ParseClick | ml/scripts/ingest_mind_to_postgres.py:310-318 | split at the last `-`; label "1" is 1, "0" is 0, else `None`; no `-` gives `(entry, None)` |
| IngestMind.ParseClickRoundTrip | ml/scripts/ingest_mind_to_postgres.py:310-318 | `id + "-1"` and `id + "-0"` parse back to `id` and the label, whatever dashes `id` holds |
| IngestMind.ImpressionRowLabels | ml/scripts/ingest_mind_to_postgres.py:340-348 | `clicked` is True, False or `None` as the label |
| IngestMind.HistoryRows | ml/scripts/ingest_mind_to_postgres.py:336-338 | one history row per non-empty token, positions from 1 |
| IngestMind.ImpressionRows | ml/scripts/ingest_mind_to_postgres.py:340-348 | one impression row per non-empty token, positions from 1 |
| IngestMind.ParseBehaviorLine | ml/scripts/ingest_mind_to_postgres.py:329-348 | more than five fields fail; otherwise the session row is the first three padded fields and the split, with one history row per history token and one impression row per impression token |
| IngestMind.ParseItemLine | ml/scripts/ingest_mind_to_postgres.py:254-271 | padded to eight fields; more than eight fail; empty entity fields become `"[]"` |
| IngestMind.ParseItem | ml/scripts/ingest_mind_to_postgres.py:254-271 | the staging row of one `news.tsv` line, or the unpacking error |
| IngestMind.ParseBehavior | ml/scripts/ingest_mind_to_postgres.py:329-348 | the session, history and impression rows of one line, or the unpacking error |
| IngestMind.Staging.constructor | ml/scripts/ingest_mind_to_postgres.py:111-114 | empty staging tables and no copies |
| IngestMind.Staging.TruncateStaging | ml/scripts/ingest_mind_to_postgres.py:111-114 | all four staging tables are emptied; the copy log is kept |
| IngestMind.Staging.CopyRows | ml/scripts/ingest_mind_to_postgres.py:117-138 | nothing for no rows; otherwise the formatted rows appended to that table only |
| IngestMind.Staging.Buffer | ml/scripts/ingest_mind_to_postgres.py:272-289 | a buffer reaching `BATCH_SIZE` is copied and cleared; copied plus buffered grows by exactly the new rows |
| IngestMind.Staging.LoadItemsToStaging | ml/scripts/ingest_mind_to_postgres.py:249-307 | succeeds exactly when no line has more than eight fields; then the total is the number of lines and their rows are appended to `stg_items` in order, in copies of at most `BATCH_SIZE`; the other tables are untouched |
| IngestMind.Staging.StageBehaviorLine | ml/scripts/ingest_mind_to_postgres.py:328-371 | one line's rows are buffered and flushed per table |
| IngestMind.Staging.LoadBehaviorsToStaging | ml/scripts/ingest_mind_to_postgres.py:321-392 | every line's rows are copied in order, table by table, and the totals count them; a bad line stops the load |
| IngestMind.Staging.FlushRest | ml/scripts/ingest_mind_to_postgres.py:373-391 | each buffer's rows are appended to its table and the totals grow by the buffer sizes; `stg_items` untouched |
| RerankerDataset.StrippedEntriesIff | ml/scripts/build_reranker_dataset.py:39 | an entry is exactly a non-empty stripped piece |
| RerankerDataset.SplitEntriesIff | ml/scripts/build_reranker_dataset.py:39 | an entry is a non-empty piece between commas, stripped |
| RerankerDataset.GetSplitsEnvAsWritten | ml/scripts/build_reranker_dataset.py:37-40 | as written: the entries, or `[default]` unsplit when there are none |
| RerankerDataset.DatasetsToBuild | ml/scripts/build_reranker_dataset.py:408-439 | train when "train" is listed, then dev when "dev" is |
| RerankerDataset.TwoEntries | ml/scripts/build_reranker_dataset.py:39 | `"a,b"` with clean words gives `[a, b]` |
| RerankerDataset.EmptySplitsBuildNothing | ml/scripts/build_reranker_dataset.py:37-40 | as written, an empty or all-blank variable with default `"train,dev"` builds no dataset |
| RerankerDataset.GetSplitsEnv | ml/scripts/build_reranker_dataset.py:37-40 | corrected: never empty, so the fallback always names a split |
| RerankerDataset.DefaultSplitsBuildBoth | ml/scripts/build_reranker_dataset.py:37-40 | corrected: an empty or unset variable builds both default datasets |
| RerankerDataset.ParseTime | ml/scripts/build_reranker_dataset.py:53-59 | `None` for missing or empty text |
| RerankerDataset.AgeDays | ml/scripts/build_reranker_dataset.py:167-168 | `max((last − ts)/86400, 0)`, never negative |
| RerankerDataset.LatestTime | ml/scripts/build_reranker_dataset.py:161-165 | the latest parsed click time, one of them |
| RerankerDataset.EmbeddingsOf | ml/scripts/build_reranker_dataset.py:174-181 | at most one embedding per click |
| RerankerDataset.WeightsOf | ml/scripts/build_reranker_dataset.py:174-181 | one weight per embedding |
| RerankerDataset.Average | ml/scripts/build_reranker_dataset.py:193 | one entry per dimension; each entry times the total weight is the weighted sum of that dimension |
| RerankerDataset.NoClicksContext | ml/scripts/build_reranker_dataset.py:131-132 | no clicks give `(None, {}, None)` |
| RerankerDataset.CategoriesOfIff | ml/scripts/build_reranker_dataset.py:182-184 | a category is the user's exactly when some click with an embedding has it |
| RerankerDataset.NoEmbeddingsIff | ml/scripts/build_reranker_dataset.py:186-187 | no embeddings exactly when no clicked item has one |
| RerankerDataset.UserVectorCases | ml/scripts/build_reranker_dataset.py:186-193 | `None` without embeddings or with zero weight, else their weighted mean |
| RerankerDataset.FallbackAgeIsRank | ml/scripts/build_reranker_dataset.py:153-161 | in fallback mode a click's age is its rank and there is no last time |
| RerankerDataset.TimedAgeIsLastClick | ml/scripts/build_reranker_dataset.py:162-168 | with every time parsed, an id's age is that of its last click, never negative; last time is the latest |
| RerankerDataset.TimedAges | ml/scripts/build_reranker_dataset.py:164-168 | the age loop of the timed branch fills `age_map` |
| RerankerDataset.ComputeAges | ml/scripts/build_reranker_dataset.py:150-168 | ranks in fallback mode, else day ages and the latest time |
| RerankerDataset.FoldClicks | ml/scripts/build_reranker_dataset.py:170-184 | the click loop gathers embeddings, weights and categories of clicks with embeddings |
| RerankerDataset.BuildUserContext | ml/scripts/build_reranker_dataset.py:114-194 | the user's vector, categories and last time as the source computes them |
| RerankerDataset.Features | ml/scripts/build_reranker_dataset.py:319-349 | label 1/0, position or 0, title and abstract lengths (0 when missing), CTRs falling back to `global_ctr`, category match 1/0; recency `max((last − t)/86400, 0)` (`AgeDays`) when both times exist, else 0; the cosine of the user and item vectors when both exist, else 0 |
| RerankerDataset.RowsWritten | ml/scripts/build_reranker_dataset.py:353-357 | without a limit (`None` or 0), all rows; with a positive limit, `min(n, limit)`; a negative limit would stop after one row, but the same limit reaches PostgreSQL's `LIMIT` first, which rejects it |
| RerankerDataset.ContextsAt | ml/scripts/build_reranker_dataset.py:315-318 | each candidate's context is that of its user |
| RerankerDataset.ExpectedRowsAt | ml/scripts/build_reranker_dataset.py:319-349 | row `i` is candidate `i`'s features with its user's context |
| RerankerDataset.ContextFor | ml/scripts/build_reranker_dataset.py:315-318 | a cached context, or one computed and stored on the user's first row |
| RerankerDataset.WriteRow | ml/scripts/build_reranker_dataset.py:299-357 | one turn of the loop: the next row with its user's cached context |
| RerankerDataset.BuildDataset | ml/scripts/build_reranker_dataset.py:292-361 | the rows written are the expected rows of the first `RowsWritten` candidates, in order, each user's context computed once |
| RoutesEvents.ValidateEventType | apps/backend/app/api/routes_events.py:27-31 | accepted exactly when the type is in the allowed set |
| RoutesEvents.ParseEvent | apps/backend/app/api/routes_events.py:13-31 | an accepted event is an object with the required strings and an allowed type |
| RoutesEvents.ParseEventTypeRule | apps/backend/app/api/routes_events.py:27-31 | a well-formed object is accepted exactly when its type is allowed |
| RoutesEvents.RawEvents | apps/backend/app/api/routes_events.py:36-41 | a list as is, an object as a list of one, anything else a 400 |
| RoutesEvents.ValidEventsSound | apps/backend/app/api/routes_events.py:43-50 | every kept event has an allowed type and comes from a raw event |
| RoutesEvents.ValidPlusDropped | apps/backend/app/api/routes_events.py:43-50 | kept + dropped = number of raw events |
| RoutesEvents.SingleImpressionKept | apps/backend/tests/test_events.py:8-25 | the test's single impression is kept and nothing is dropped |
| RoutesEvents.ValidateAll | apps/backend/app/api/routes_events.py:43-50 | the loop keeps the valid events and counts the dropped ones |
| RoutesEvents.EventStore.constructor | apps/backend/app/db.py:47-49 | a table holding the given events |
| RoutesEvents.EventStore.InsertEvents | apps/backend/app/db.py:47-77 | the batch appended; its length returned |
| RoutesEvents.IngestEvents | apps/backend/app/api/routes_events.py:34-61 | a 400 exactly for a bad payload; otherwise exactly the valid events inserted, and inserted + dropped = raw events |
| Observability.Present | apps/backend/app/observability/metrics.py:78 | no longer than the input; empty exactly when every value is `None` |
| Observability.SafeMean | apps/backend/app/observability/metrics.py:77-81 | `None` when nothing is present, else the mean of the present values |
| Observability.SafeMeanWithin | apps/backend/app/observability/metrics.py:77-81 | the mean of values within bounds stays within them |
| Observability.RepetitionRate | apps/backend/app/observability/metrics.py:104-107 | 0 for an empty list, else `1 − unique/len`, in [0, 1] |
| Observability.Summarize | apps/backend/app/observability/metrics.py:100-125 | unique counts at most the item count; repetition rate in [0, 1] and 0 for no items; each average `None` exactly when no item carries its field |
| Observability.SummarizeValues | apps/backend/app/observability/metrics.py:100-125 | the unique counts are the numbers of distinct truthy categories and subcategories; the repetition rate times the item count is the number of items beyond the distinct subcategories; the averages are the `_safe_mean` of the top bonuses and of the redundancy penalties |
| Observability.SummarizeCounts | apps/backend/app/observability/metrics.py:100-103 | the unique counts are the sizes of the sets of truthy categories and of truthy subcategories |
| Observability.SummarizeRepetition | apps/backend/app/observability/metrics.py:104-107 | for a non-empty response, rate × items = items − distinct subcategories |
| Observability.SummarizeMeans | apps/backend/app/observability/metrics.py:113-125 | the two averages are `_safe_mean` of the items' top bonuses and redundancy penalties |
| Observability.NoRepetition | apps/backend/app/observability/metrics.py:101-107 | distinct truthy subcategories give repetition 0 |
| Observability.SummaryObservations | apps/backend/app/observability/metrics.py:109-127 | three to five observations; an average is observed exactly when it exists |
| Observability.ResponseObservations | apps/backend/app/observability/metrics.py:94-127 | six to eight observations per response |
| Observability.AveragesObservedIff | apps/backend/app/observability/metrics.py:113-127 | an average is observed exactly when some item carries its field |
| Observability.Inc | apps/backend/app/observability/metrics.py:93 | one more on the key, others unchanged |
| Observability.FeedMetrics.constructor | apps/backend/app/observability/metrics.py:23-74 | an empty registry: no counters, no observations |
| Observability.FeedMetrics.CountRequest | apps/backend/app/observability/metrics.py:93 | one more request for the (method, variant) key |
| Observability.FeedMetrics.CountDiversified | apps/backend/app/observability/metrics.py:97-98 | one more diversified response for the variant |
| Observability.FeedMetrics.ObserveFeedResponse | apps/backend/app/observability/metrics.py:84-127 | the request counter grows by one; the diversify counter only when diversification is on; the response's observations are appended |
| Sorting.SortIndicesDesc | apps/backend/app/services/reranker.py:154 | a permutation sorted by non-increasing key, stable on ties |
| Sorting.SortByKeyDesc | ml/scripts/build_top.py:220-222 | the same length and the same elements, in non-increasing key order |
| Sorting.SortByKeyDescIsStableSort | ml/scripts/build_top.py:220-222 | `sorted(..., reverse=True)` is a stable permutation: every element kept as often as it occurs, listed along a permutation of the positions that is descending by key and keeps equal keys in their original order |
| Text.Normalize | apps/backend/app/services/fresh_ingest.py:37 | no whitespace at either end |
| Text.StripPadded | apps/backend/app/services/rollout.py:13 | `strip` of a word padded by whitespace on both sides gives back exactly the word |
| Text.NormalizeShape | apps/backend/app/services/fresh_ingest.py:37 | no space at either end, no double space, and idempotent |
| Text.ParseInt | apps/backend/app/services/rollout.py:18 | only text that is non-empty after stripping parses |
| ModuleImports.ImportFrom | apps/backend/app/api/routes_retrieval.py:9 | the imported names when the module defines them all; otherwise an `ImportError` naming the first one it lacks |
| ModuleImports.ScoreCandidatesUnbound | apps/backend/app/api/routes_retrieval.py:9 | as written, the router's import (and `eval_diversification.py:17`'s) fails on `score_candidates`, which `reranker.py` never defines |
| ModuleImports.ScoreCandidatesBound | ml/scripts/eval_diversification.py:17 | once the reranker module defines `score_candidates`, both imports succeed |
| Text.ParseNatToString | apps/backend/app/services/rollout.py:18 | the decimal rendering of every natural number parses back to it |

## Left out

- I/O and drivers:
  - `fetch_rss_items`, `load_rss_sources` and `_parse_published` (`fresh_ingest.py`): feedparser, requests and file reads.
  - `record_ingest_run`, `embed_fresh_items` and `run_fresh_ingest`: database writes and the embedding model around the modelled pieces.
  - `main`/CLI code of the scripts, `get_env`/`get_conn`, `init_tables`, the `upsert_*` SQL of `ingest_mind_to_postgres.py`, `ingest_split` and `print_summary`.
  - logging, `print` and `tqdm`.
- SQL queries are inputs. Their text is not modelled: ORDER BY, LIMIT, joins and `ON CONFLICT` clauses are stated as properties of the input rows or as table updates.
- Floating point: Python floats are real numbers, so rounding is not captured. For example, `ceil(10 * 0.3)` is 4 in floats and 3 here.
- Functions given as parameters, with only the axioms the proofs need:
  - `exp`, `sqrt`, `log2`;
  - `sha256` and `urlencode`, in `_hash_url`, the rollout bucket and `_canonicalize_url`;
  - `strptime`, `np.fromstring` and `float()`;
  - numpy's matrix ILD, which becomes pairwise similarities;
  - the model's `predict_proba`.
- `format_vector` (`retrieval_pgvector.py`, `fresh_ingest.py`): float formatting is not modelled.
- `load_model` and the module-global `_MODEL`/`_CONFIG` cache of `reranker.py`: the model is an input; the cache is a concurrency concern.
- `score_candidates` is imported by `routes_retrieval.py:9` and `eval_diversification.py:17` but defined nowhere in `reranker.py`. As written both imports raise `ImportError` (`ModuleImports.ScoreCandidatesUnbound`). Since `main.py:10` imports the retrieval router, the backend application does not load at all, and the evaluation script stops at its imports. The model takes the scorer as a parameter (`RoutesRetrieval.Externals.scoreCandidates`, one score per candidate) and models the handler as if the name existed (see Findings).
- The HTTP framework:
  - `/feed` and `/retrieve_debug`: thin wrappers;
  - pydantic's field coercion, which becomes a predicate parameter of `RoutesEvents.ParseEvent`;
  - request schema bounds, which are inputs.
- `FreshIngest.PutNodesContents`: does not model the database error when one batch upserts the same key twice. The model lets the last write win.
- `RetrievalPgvector.UnderexploredPlan`: requires `max_nodes ≠ 0` when `top_n > 0`. There the source raises ZeroDivisionError.
- `RetrievalPgvector.RetrieveUnderexplored`: the same requirement on `max_nodes`.
- `Rollout.RolloutStore.UpdateRolloutConfig`: requires the update keys to be distinct. They are the items of a Python dict, so this always holds.
- `Text.ParseInt`: accepts only surrounding whitespace, an optional sign and ASCII digits. Python's `int()` also accepts underscores between digits (`"1_000"`) and non-ASCII decimal digits; those read as unparseable here, so on them `_int_from_value` falls back to its default and `get_int_env` reports a setting that does not parse.
- `Text.Lower`: maps only ASCII `A`-`Z`. Python's `str.lower` also lowers other letters (the Kelvin sign to `k`, `İ` to `i̇`). This affects the keyword match of `FreshIngest.MapCategory` and the case-insensitive `utm_` test of `FreshIngest.KeptPairs` on such input.
- `DiversifyTop.DiversifyGreedy`: `diversify_top.py:84` calls `load_user_top_nodes` as written. The model uses the corrected map, so where two stored nodes share a category/subcategory key, the top bonuses and picks can differ from the program's (see Findings). Without repeated keys both agree (`DiversifyTop.DistinctRowsAgree`). The same holds for `DiversifyTop.Choose`.
- `DiversifyTop.Choose`: like `DiversifyGreedy`, it reads the corrected interest map `TopNodeMap`, not the as-written `load_user_top_nodes` result, so its bonuses and picks match the program's only when no category/subcategory key repeats (`DiversifyTop.DistinctRowsAgree`).
- `IngestMind.Staging.CopyRows`: the tab-separated CSV that `copy_rows` (`ingest_mind_to_postgres.py:121`) writes with `csv.QUOTE_MINIMAL` is not modelled. COPY is modelled by the field values it delivers, with `None` as `\N`; quoting and escaping of fields that contain tabs, quotes or newlines is left out.
- `RerankerDataset.Features`: the written row applies `round(user_recency_days, 6)` and `round(cosine_sim, 6)` (`build_reranker_dataset.py:348-349`); the model gives the unrounded values, because float rounding is not modelled.
- `RerankerDataset.BuildDataset`: requires every stored embedding to have one length (`SameDims`), as do `BuildUserContext` and the lemmas about user contexts. Where click embeddings differ in length, `np.vstack` raises; that failure is not modelled here.
- `RerankerDataset.RowsWritten`: states the loop's break test for negative limits too, though the program never gets there: `build_reranker_dataset.py:211` passes the same `max_rows` to `LIMIT %s`, and PostgreSQL rejects a negative LIMIT.
- `RoutesRetrieval.RetrieveCandidates`: reports a setting that does not parse as `InvalidSetting`, not HTTP 500. Env parsing sits before the `try` block, so the exception escapes the handler.

## Findings

| source | as written | input that shows it | evidently intended | confidence | as-written member | corrected member |
|---|---|---|---|---|---|---|
| apps/backend/app/services/diversify_top.py:30-43 | scores are normalised per ROW, then assigned by position to the DISTINCT keys of `node_map` | rows (a,x)=1, (a,x)=5, (b,y)=3 (two stored nodes with the same category and subcategory under different paths; `build_top.py` and `fresh_ingest.py` do not appear to write such nodes, so another writer is needed): (a,x) gets 0.0 and (b,y) 1.0 | each key gets its own node's normalised score: (a,x) 1.0, (b,y) 0.0 | not executed | DiversifyTop.LoadUserTopNodesAsWritten | DiversifyTop.LoadUserTopNodes |
| apps/backend/app/api/routes_retrieval.py:9 | imports `score_candidates` from `reranker.py`, which defines no such name (so does `eval_diversification.py:17`) | importing the module, as `main.py:10` does: `ImportError` on `score_candidates`, so neither the backend nor the evaluation script starts | a reranker function giving one score per candidate, handed to `diversify_greedy` | not executed | ModuleImports.ScoreCandidatesUnbound | RoutesRetrieval.Diversify |
| ml/scripts/build_reranker_dataset.py:37-40 | the fallback `[default]` is not split on commas | `RERANK_SPLITS=""` (or `","`) with default `"train,dev"` gives `["train,dev"]`, so neither dataset is built | the default's own entries: `["train", "dev"]` | not executed | RerankerDataset.GetSplitsEnvAsWritten | RerankerDataset.GetSplitsEnv |
