// The `/retrieve` (and `/feed`) endpoint: settings and pool sizes, the
// popular fallback, the vector / explore / popular / backfill merge with its
// `seen_ids` set, truncation to the candidate pool, then reranking and
// diversification. Every SQL query is an oracle of the `Db` record.
module RoutesRetrieval {
  import opened Wrappers
  import opened Numeric
  import opened Lists
  import opened FeedTypes
  import Text
  import RetrievalPgvector
  import Reranker
  import DiversifyTop

  /** `RetrievalRequest`. */
  datatype RetrievalRequest = RetrievalRequest(
    userId: string, topN: int, historyK: int, rerank: bool, exploreLevel: real, diversify: bool)

  /** The field bounds the request schema enforces before the handler runs. */
  predicate ValidRequest(r: RetrievalRequest)
  {
    1 <= r.topN <= 1000 && 1 <= r.historyK <= 500 && 0.0 <= r.exploreLevel <= 1.0
  }

  /** The environment variables the handler reads. */
  datatype Env = Env(candidatePoolN: Option<string>, exploreRatio: Option<string>,
                     halfLifeDays: Option<string>, excludeRecentM: Option<string>)

  /** `get_int_env`: the default for an unset or empty variable, else
      `int(value)`, `None` where that raises `ValueError`. */
  function GetIntEnv(value: Option<string>, default: int): (r: Option<int>)
    ensures value.None? || value.value == "" ==> r == Some(default)
    ensures value.Some? && value.value != "" ==> r == Text.ParseInt(value.value)
  {
    if value.None? || value.value == "" then Some(default) else Text.ParseInt(value.value)
  }

  /** `get_float_env`, with `parseFloat` standing for `float(value)`. */
  function GetFloatEnv(value: Option<string>, default: real, parseFloat: string -> Option<real>): (r: Option<real>)
    ensures value.None? || value.value == "" ==> r == Some(default)
    ensures value.Some? && value.value != "" ==> r == parseFloat(value.value)
  {
    if value.None? || value.value == "" then Some(default) else parseFloat(value.value)
  }

  /** The three pool sizes. */
  datatype Pools = Pools(candidatePool: int, explorePool: int, vectorPool: int)

  /** `candidate_pool_n`, `explore_pool_n` and `vector_pool_n` from `top_n`,
      `CANDIDATE_POOL_N` and `EXPLORE_POOL_RATIO`. */
  function PoolsFor(topN: int, configuredPool: int, ratio: real): (p: Pools)
    requires topN >= 1
    ensures p.candidatePool == MaxInt(topN, configuredPool) && p.candidatePool >= topN
    ensures 0 <= p.explorePool && 2 * p.explorePool <= p.candidatePool
    ensures ratio <= 0.0 ==> p.explorePool == 0
    ensures p.vectorPool >= 1 && p.vectorPool == MaxInt(p.candidatePool - p.explorePool, 1)
  {
    var pool := MaxInt(topN, configuredPool);
    var clamped := Clamp(ratio, 0.0, 0.5);
    DiversifyTop.ScaleLe(pool as real, clamped, 0.5);
    DiversifyTop.ScaleLe(pool as real, 0.0, clamped);
    var scaled := pool as real * clamped;
    assert pool as real * 0.0 == 0.0;
    assert 0.0 <= scaled <= pool as real * 0.5;
    var explore := Trunc(scaled);
    assert explore as real <= scaled;
    assert (2 * explore) as real <= pool as real;
    Pools(pool, explore, MaxInt(pool - explore, 1))
  }

  /** The settings after the environment has been read. */
  datatype Settings = Settings(pools: Pools, halfLifeDays: real, excludeRecentM: int)

  /** The settings, or the name of the first variable whose value does not
      parse (a `ValueError` before the handler's `try`). */
  function SettingsFor(request: RetrievalRequest, env: Env, parseFloat: string -> Option<real>): (r: Result<Settings, string>)
    requires ValidRequest(request)
    ensures r.Ok? ==> r.value.pools.candidatePool >= request.topN && r.value.pools.vectorPool >= 1
  {
    var pool := GetIntEnv(env.candidatePoolN, 200);
    if pool.None? then Err("CANDIDATE_POOL_N")
    else
      var ratio := GetFloatEnv(env.exploreRatio, 0.2, parseFloat);
      if ratio.None? then Err("EXPLORE_POOL_RATIO")
      else
        var halfLife := GetFloatEnv(env.halfLifeDays, 7.0, parseFloat);
        if halfLife.None? then Err("USER_HALF_LIFE_DAYS")
        else
          var m := GetIntEnv(env.excludeRecentM, 200);
          if m.None? then Err("EXCLUDE_RECENT_M")
          else Ok(Settings(PoolsFor(request.topN, pool.value, ratio.value), halfLife.value, m.value))
  }

  /** With nothing configured, the pool is 200 (or `top_n` when larger),
      40 of them exploration slots when `top_n` is at most 200. */
  lemma DefaultSettings(request: RetrievalRequest, parseFloat: string -> Option<real>)
    requires ValidRequest(request) && request.topN <= 200
    ensures SettingsFor(request, Env(None, None, None, None), parseFloat)
         == Ok(Settings(Pools(200, 40, 160), 7.0, 200))
  {
    assert 200.0 * 0.2 == 40.0;
  }

  // ---------------------------------------------------------------------
  // The merge

  /** The set of news ids of a list. */
  function IdSet(items: seq<Item>): set<string>
  {
    set i | 0 <= i < |items| :: items[i].newsId
  }

  /** No news id occurs twice. */
  predicate UniqueIds(items: seq<Item>)
  {
    forall i, j :: 0 <= i < j < |items| ==> items[i].newsId != items[j].newsId
  }

  /** The loop `for item in extra: if item["news_id"] not in seen_ids: ...`,
      returning the grown list and set. */
  function AppendUnseen(items: seq<Item>, seen: set<string>, extra: seq<Item>): (seq<Item>, set<string>)
    decreases |extra|
  {
    if extra == [] then (items, seen)
    else if extra[0].newsId in seen then AppendUnseen(items, seen, extra[1..])
    else AppendUnseen(items + [extra[0]], seen + {extra[0].newsId}, extra[1..])
  }

  lemma IdSetCons(extra: seq<Item>)
    requires extra != []
    ensures IdSet(extra) == {extra[0].newsId} + IdSet(extra[1..])
  {
    var tail := extra[1..];
    forall x | x in IdSet(extra) ensures x in {extra[0].newsId} + IdSet(tail) {
      var i :| 0 <= i < |extra| && extra[i].newsId == x;
      if i > 0 {
        assert tail[i - 1].newsId == x;
      }
    }
    forall x | x in IdSet(tail) ensures x in IdSet(extra) {
      var i :| 0 <= i < |tail| && tail[i].newsId == x;
      assert extra[i + 1].newsId == x;
    }
  }

  lemma IdSetSnoc(items: seq<Item>, x: Item)
    ensures IdSet(items + [x]) == IdSet(items) + {x.newsId}
  {
    var s := items + [x];
    forall y | y in IdSet(s) ensures y in IdSet(items) + {x.newsId} {
      var i :| 0 <= i < |s| && s[i].newsId == y;
      if i < |items| {
        assert items[i].newsId == y;
      }
    }
    forall y | y in IdSet(items) ensures y in IdSet(s) {
      var i :| 0 <= i < |items| && items[i].newsId == y;
      assert s[i].newsId == y;
    }
    assert s[|items|].newsId == x.newsId;
  }

  /** What the append loop does: the old list stays a prefix, every id of
      `extra` ends up in the set, every appended item comes from `extra` with
      an id not seen before, and a duplicate-free list whose ids are all in
      the set stays so. */
  lemma {:induction false} AppendUnseenFacts(items: seq<Item>, seen: set<string>, extra: seq<Item>)
    ensures var r := AppendUnseen(items, seen, extra);
      && |items| <= |r.0| && r.0[..|items|] == items
      && r.1 == seen + IdSet(extra)
      && (forall j :: |items| <= j < |r.0| ==> r.0[j] in extra && r.0[j].newsId !in seen)
      && (UniqueIds(items) && IdSet(items) <= seen ==> UniqueIds(r.0) && IdSet(r.0) <= r.1)
    decreases |extra|
  {
    if extra != [] {
      var x := extra[0];
      var tail := extra[1..];
      IdSetCons(extra);
      if x.newsId in seen {
        AppendUnseenFacts(items, seen, tail);
        var r := AppendUnseen(items, seen, tail);
        forall j | |items| <= j < |r.0| ensures r.0[j] in extra {
          assert r.0[j] in tail;
        }
      } else {
        var items' := items + [x];
        var seen' := seen + {x.newsId};
        AppendUnseenFacts(items', seen', tail);
        var r := AppendUnseen(items', seen', tail);
        assert r.0[..|items'|] == items';
        assert r.0[..|items|] == items'[..|items|] == items;
        forall j | |items| <= j < |r.0| ensures r.0[j] in extra && r.0[j].newsId !in seen {
          if j == |items| {
            assert r.0[j] == items'[j] == x;
          } else {
            assert r.0[j] in tail;
          }
        }
        if UniqueIds(items) && IdSet(items) <= seen {
          IdSetSnoc(items, x);
          forall i | 0 <= i < |items| ensures items'[i].newsId != x.newsId {
            assert items[i].newsId in IdSet(items);
          }
          assert UniqueIds(items');
        }
      }
    }
  }

  /** The loop itself. */
  method AppendUnseenLoop(items0: seq<Item>, seen0: set<string>, extra: seq<Item>)
    returns (items: seq<Item>, seen: set<string>)
    ensures (items, seen) == AppendUnseen(items0, seen0, extra)
  {
    items, seen := items0, seen0;
    for i := 0 to |extra|
      invariant AppendUnseen(items, seen, extra[i..]) == AppendUnseen(items0, seen0, extra)
    {
      var item := extra[i];
      assert extra[i..][0] == item && extra[i..][1..] == extra[i + 1..];
      if item.newsId !in seen {
        items := items + [item];
        seen := seen + {item.newsId};
      }
    }
    assert extra[|extra|..] == [];
  }

  /** The query oracles. Each ranked list is a query's rows before its LIMIT. */
  datatype Db = Db(
    clickHistory: (string, int) -> seq<RetrievalPgvector.Click>,
    embeddingRows: seq<string> -> seq<(string, RetrievalPgvector.VectorValue)>,
    seenHistory: string -> seq<string>,
    byVector: (seq<real>, set<string>) -> seq<Item>,
    underexplored: (string, RetrievalPgvector.UnderexploredQuery) -> seq<Item>,
    popular: seq<Item>,
    itemInfo: seq<string> -> map<string, Reranker.ItemInfo>,
    clickCategories: seq<string> -> map<string, Option<string>>,
    topNodeRows: string -> seq<DiversifyTop.TopNodeRow>,
    embeddingOf: string -> Option<seq<real>>)

  /** `retrieve_by_vector(conn, user_vec, n, exclude)` */
  function RetrieveByVector(db: Db, userVec: seq<real>, n: int, exclude: set<string>): seq<Item>
  {
    Take(db.byVector(userVec, exclude), n)
  }

  /** `retrieve_popular(conn, n)` */
  function RetrievePopular(db: Db, n: int): seq<Item>
  {
    Take(db.popular, n)
  }

  /** The explore items: the underexplored query (12 nodes), or the popular
      list when that comes back empty. */
  function ExploreItems(db: Db, userId: string, n: int, seen: set<string>): seq<Item>
  {
    var explore := RetrievalPgvector.RetrieveUnderexplored(n, seen, 12, q => db.underexplored(userId, q));
    if explore == [] then RetrievePopular(db, n) else explore
  }

  /** The merged list of lines 96-118. */
  function Merged(db: Db, userId: string, userVec: seq<real>, exclude: seq<string>, pools: Pools, topN: int): seq<Item>
  {
    var excluded := set x | x in exclude;
    var items := RetrieveByVector(db, userVec, pools.vectorPool, excluded);
    if pools.explorePool > 0 then
      var seen := excluded + IdSet(items);
      var afterExplore := AppendUnseen(items, seen, ExploreItems(db, userId, pools.explorePool, seen));
      if |afterExplore.0| < topN then
        AppendUnseen(afterExplore.0, afterExplore.1,
                     RetrieveByVector(db, userVec, topN - |afterExplore.0|, afterExplore.1)).0
      else afterExplore.0
    else items
  }

  /** The vector results come first, in their order; without exploration
      they are the whole list. */
  lemma MergedStartsWithVector(db: Db, userId: string, userVec: seq<real>, exclude: seq<string>, pools: Pools, topN: int)
    ensures var items := RetrieveByVector(db, userVec, pools.vectorPool, set x | x in exclude);
            var merged := Merged(db, userId, userVec, exclude, pools, topN);
      |items| <= |merged| && merged[..|items|] == items
      && (pools.explorePool <= 0 ==> merged == items)
  {
    var excluded := set x | x in exclude;
    var items := RetrieveByVector(db, userVec, pools.vectorPool, excluded);
    if pools.explorePool > 0 {
      var seen := excluded + IdSet(items);
      var ex := ExploreItems(db, userId, pools.explorePool, seen);
      AppendUnseenPrefix(items, seen, ex);
      var a := AppendUnseen(items, seen, ex);
      if |a.0| < topN {
        var back := RetrieveByVector(db, userVec, topN - |a.0|, a.1);
        AppendUnseenPrefix(a.0, a.1, back);
        PrefixOfPrefix(AppendUnseen(a.0, a.1, back).0, a.0, items);
      }
    }
  }

  /** The prefix part of `AppendUnseenFacts`. */
  lemma AppendUnseenPrefix(items: seq<Item>, seen: set<string>, extra: seq<Item>)
    ensures var r := AppendUnseen(items, seen, extra).0; |items| <= |r| && r[..|items|] == items
  {
    AppendUnseenFacts(items, seen, extra);
  }

  lemma PrefixOfPrefix(c: seq<Item>, b: seq<Item>, a: seq<Item>)
    requires |b| <= |c| && c[..|b|] == b && |a| <= |b| && b[..|a|] == a
    ensures c[..|a|] == a
  {
    assert c[..|a|] == c[..|b|][..|a|];
  }


  /** One append stage keeps the list duplicate-free, its ids inside the
      set, and the excluded ids out of the list. */
  lemma StageUnique(items: seq<Item>, seen: set<string>, extra: seq<Item>, excluded: set<string>)
    requires UniqueIds(items) && IdSet(items) <= seen && excluded <= seen
    requires forall i :: 0 <= i < |items| ==> items[i].newsId !in excluded
    ensures var r := AppendUnseen(items, seen, extra);
      UniqueIds(r.0) && IdSet(r.0) <= r.1 && excluded <= r.1
      && forall i :: 0 <= i < |r.0| ==> r.0[i].newsId !in excluded
  {
    AppendUnseenFacts(items, seen, extra);
    var r := AppendUnseen(items, seen, extra);
    forall i | 0 <= i < |r.0| ensures r.0[i].newsId !in excluded {
      if i < |items| {
        assert r.0[i] == r.0[..|items|][i] == items[i];
      }
    }
  }

  /** Given duplicate-free vector results that avoid the excluded ids, the
      merged list is duplicate-free and holds no excluded id. */
  lemma MergedUnique(db: Db, userId: string, userVec: seq<real>, exclude: seq<string>, pools: Pools, topN: int)
    requires var items := RetrieveByVector(db, userVec, pools.vectorPool, set x | x in exclude);
      UniqueIds(items) && forall i :: 0 <= i < |items| ==> items[i].newsId !in exclude
    ensures var merged := Merged(db, userId, userVec, exclude, pools, topN);
      UniqueIds(merged) && forall i :: 0 <= i < |merged| ==> merged[i].newsId !in exclude
  {
    var excluded := set x | x in exclude;
    var items := RetrieveByVector(db, userVec, pools.vectorPool, excluded);
    if pools.explorePool > 0 {
      var seen := excluded + IdSet(items);
      var ex := ExploreItems(db, userId, pools.explorePool, seen);
      StageUnique(items, seen, ex, excluded);
      var a := AppendUnseen(items, seen, ex);
      if |a.0| < topN {
        var back := RetrieveByVector(db, userVec, topN - |a.0|, a.1);
        StageUnique(a.0, a.1, back, excluded);
      }
    }
  }

  /** The merge as the handler runs it. */
  method MergeCandidates(db: Db, userId: string, userVec: seq<real>, exclude: seq<string>, pools: Pools, topN: int)
    returns (items: seq<Item>)
    ensures items == Merged(db, userId, userVec, exclude, pools, topN)
  {
    var excluded := set x | x in exclude;
    items := RetrieveByVector(db, userVec, pools.vectorPool, excluded);
    if pools.explorePool > 0 {
      var seenIds := excluded + IdSet(items);
      var exploreItems := RetrievalPgvector.RetrieveUnderexplored(pools.explorePool, seenIds, 12,
                                                                 q => db.underexplored(userId, q));
      if exploreItems == [] {
        exploreItems := RetrievePopular(db, pools.explorePool);
      }
      items, seenIds := AppendUnseenLoop(items, seenIds, exploreItems);
      if |items| < topN {
        var backfill := RetrieveByVector(db, userVec, topN - |items|, seenIds);
        items, seenIds := AppendUnseenLoop(items, seenIds, backfill);
      }
    }
  }

  // ---------------------------------------------------------------------
  // The handler

  datatype RetrievalMethod = Personalized | PopularFallback

  /** `RetrievalResponse`. */
  datatype RetrievalResponse = RetrievalResponse(
    userId: string, items: seq<Item>, retrievalMethod: RetrievalMethod, diversification: Option<DiversifyTop.Metrics>)

  /** A failed request: a setting that does not parse (raised before the
      `try`), or an exception inside it, surfaced as HTTP 500. */
  datatype Failure = InvalidSetting(name: string) | ServerError(status: int, reason: string)

  /** The inputs of the external computations the handler calls: the
      reranker model (if loaded), the parsers and numeric oracles, the
      clock, `score_candidates`, and the diversifier's settings. */
  datatype Externals = Externals(
    model: Option<(seq<real> -> real, Reranker.Config)>,
    parseFloat: string -> Option<real>,
    fromString: string -> seq<real>,
    strptime: string -> Option<real>,
    now: real,
    exp: real -> real,
    sqrt: real -> real,
    scoreCandidates: seq<Item> -> seq<real>,
    bases: DiversifyTop.Bases,
    caps: DiversifyTop.Caps,
    sim: (seq<real>, seq<real>) -> real)

  /** The user vector the handler builds. */
  function UserVectorOf(request: RetrievalRequest, db: Db, ext: Externals, halfLife: real): RetrievalPgvector.UserVector
  {
    var clicks := db.clickHistory(request.userId, request.historyK);
    RetrievalPgvector.UserVectorFor(clicks, halfLife, db.embeddingRows(RetrievalPgvector.ClickIds(clicks)),
                                    ext.fromString, ext.strptime, ext.now, ext.exp)
  }

  /** The candidate pool the personalized branch hands on: the merge,
      truncated to `candidate_pool_n`. */
  function PoolOf(request: RetrievalRequest, db: Db, userVec: seq<real>, s: Settings): (pool: seq<Item>)
    requires s.pools.candidatePool >= 0
    ensures |pool| <= s.pools.candidatePool
  {
    var exclude := RetrievalPgvector.RecentSeenNewsIds(s.excludeRecentM, db.seenHistory(request.userId));
    var merged := Merged(db, request.userId, userVec, exclude, s.pools, request.topN);
    if |merged| > s.pools.candidatePool then merged[..s.pools.candidatePool] else merged
  }

  /** What `diversify_greedy` gives for `items` scored by `score_candidates`:
      one score per item, and a greedy run over the candidates built from the
      normalised scores and the user's interest map, of `min(top_n, len(items))` picks unless
      nothing more is eligible; the picked items decorated in pick order;
      and the metrics of the picks. */
  ghost predicate DiversifiedAs(request: RetrievalRequest, db: Db, ext: Externals, items: seq<Item>,
                                picks: seq<nat>, diversified: seq<Item>, metrics: DiversifyTop.Metrics)
  {
    |ext.scoreCandidates(items)| == |items| &&
    var cs := DiversifyTop.Cands(items, DiversifyTop.NormalizeScores(ext.scoreCandidates(items)),
                                 DiversifyTop.TopNodeMap(db.topNodeRows(request.userId)));
    var w := DiversifyTop.ComputeWeights(request.exploreLevel, ext.bases);
    var caps := DiversifyTop.CapsFor(request.exploreLevel, ext.caps);
    && DiversifyTop.GreedyRun(cs, w, caps, picks)
    && |picks| <= DiversifyTop.Steps(request.topN, |items|)
    && (|picks| < DiversifyTop.Steps(request.topN, |items|) ==> DiversifyTop.NoneEligible(cs, caps, picks))
    && DiversifyTop.SelectedMatch(cs, w, items, picks, diversified)
    && metrics.uniqueCategories == |DiversifyTop.SelCats(cs, picks)|
    && metrics.uniqueSubcategories == |DiversifyTop.SelSubs(cs, picks)|
  }

  /** The diversification stage (lines 124-138): the pool scored by
      `score_candidates`, then the greedy selection, which picks at most
      `topN` items. */
  method Diversify(request: RetrievalRequest, db: Db, ext: Externals, items: seq<Item>)
    returns (diversified: seq<Item>, metrics: DiversifyTop.Metrics, ghost picks: seq<nat>)
    requires ValidRequest(request)
    requires forall c :: |ext.scoreCandidates(c)| == |c|
    ensures DiversifiedAs(request, db, ext, items, picks, diversified, metrics)
    ensures |diversified| <= request.topN
    ensures items == [] ==> diversified == []
  {
    var scores := ext.scoreCandidates(items);
    var candidates := new Item[|items|](i requires 0 <= i < |items| => items[i]);
    assert candidates[..] == items;
    diversified, metrics, picks := DiversifyTop.DiversifyGreedy(
      candidates, scores, db.topNodeRows(request.userId), request.exploreLevel, request.topN,
      ext.bases, ext.caps, db.embeddingOf, ext.sim);
    assert |diversified| == |picks| <= DiversifyTop.Steps(request.topN, candidates.Length);
  }

  /** The items the personalized branch hands to diversification or
      truncation: `rerank`'s result when reranking is on, the pool
      otherwise. */
  ghost predicate RerankedPool(request: RetrievalRequest, db: Db, ext: Externals, s: Settings, pool: seq<Item>,
                               reranked: Result<seq<Item>, Reranker.RerankError>, order: seq<nat>)
  {
    var clicks := db.clickHistory(request.userId, request.historyK);
    && (request.rerank ==>
          Reranker.RerankedAs(pool, ext.model, clicks, s.halfLifeDays, db.embeddingRows(RetrievalPgvector.ClickIds(clicks)),
                              ext.fromString, ext.strptime, ext.now, ext.exp, ext.sqrt,
                              db.itemInfo(Ids(pool)), db.clickCategories(RetrievalPgvector.ClickIds(clicks)),
                              reranked, order))
    && (!request.rerank ==> reranked == Ok(pool))
  }

  /** The response of the personalized branch: HTTP 500 when `rerank`
      raises; otherwise the reranked (or plain) pool, either diversified
      or cut to `topN`. */
  ghost predicate PersonalizedAs(request: RetrievalRequest, db: Db, ext: Externals, s: Settings, pool: seq<Item>,
                                 reranked: Result<seq<Item>, Reranker.RerankError>, order: seq<nat>, picks: seq<nat>,
                                 outcome: Result<RetrievalResponse, Failure>)
  {
    && RerankedPool(request, db, ext, s, pool, reranked, order)
    && (reranked.Err? ==> outcome == Err(ServerError(500, "rerank")))
    && (reranked.Ok? && !request.diversify ==>
          outcome == Ok(RetrievalResponse(request.userId, Take(reranked.value, request.topN), Personalized, None)))
    && (reranked.Ok? && request.diversify ==>
          && outcome.Ok? && outcome.value.userId == request.userId
          && outcome.value.retrievalMethod == Personalized && outcome.value.diversification.Some?
          && DiversifiedAs(request, db, ext, reranked.value, picks, outcome.value.items,
                           outcome.value.diversification.value))
  }

  /** Reranking and diversification of the pool (lines 122-139). */
  method Personalize(request: RetrievalRequest, db: Db, ext: Externals, s: Settings, pool: seq<Item>)
    returns (outcome: Result<RetrievalResponse, Failure>, ghost reranked: Result<seq<Item>, Reranker.RerankError>, ghost order: seq<nat>, ghost picks: seq<nat>)
    requires ValidRequest(request)
    requires forall c :: |ext.scoreCandidates(c)| == |c|
    ensures PersonalizedAs(request, db, ext, s, pool, reranked, order, picks, outcome)
    ensures outcome.Ok? ==>
      outcome.value.userId == request.userId && outcome.value.retrievalMethod == Personalized
      && |outcome.value.items| <= request.topN
    ensures !request.rerank && !request.diversify ==> outcome == Ok(RetrievalResponse(
      request.userId, Take(pool, request.topN), Personalized, None))
    ensures outcome.Err? ==> outcome.error == ServerError(500, "rerank")
  {
    var items := pool;
    reranked, order, picks := Ok(pool), [], [];
    if request.rerank {
      var clicks := db.clickHistory(request.userId, request.historyK);
      var result;
      result, order := Reranker.Rerank(
        items, ext.model, clicks, s.halfLifeDays, db.embeddingRows(RetrievalPgvector.ClickIds(clicks)),
        ext.fromString, ext.strptime, ext.now, ext.exp, ext.sqrt,
        db.itemInfo(Ids(items)), db.clickCategories(RetrievalPgvector.ClickIds(clicks)));
      reranked := result;
      if result.Err? {
        return Err(ServerError(500, "rerank")), reranked, order, picks;
      }
      items := result.value;
    }
    if request.diversify {
      var diversified, metrics;
      diversified, metrics, picks := Diversify(request, db, ext, items);
      return Ok(RetrievalResponse(request.userId, diversified, Personalized, Some(metrics))), reranked, order, picks;
    }
    return Ok(RetrievalResponse(request.userId, Take(items, request.topN), Personalized, None)), reranked, order, picks;
  }

  /** `retrieve_candidates`. */
  method RetrieveCandidates(request: RetrievalRequest, env: Env, db: Db, ext: Externals)
    returns (outcome: Result<RetrievalResponse, Failure>, ghost reranked: Result<seq<Item>, Reranker.RerankError>, ghost order: seq<nat>, ghost picks: seq<nat>)
    requires ValidRequest(request)
    requires forall c :: |ext.scoreCandidates(c)| == |c|
    ensures SettingsFor(request, env, ext.parseFloat).Err? ==>
      outcome == Err(InvalidSetting(SettingsFor(request, env, ext.parseFloat).error))
    ensures SettingsFor(request, env, ext.parseFloat).Ok? ==>
      var s := SettingsFor(request, env, ext.parseFloat).value;
      var v := UserVectorOf(request, db, ext, s.halfLifeDays);
      && (v.NoVector? ==> outcome == Ok(RetrievalResponse(request.userId, RetrievePopular(db, request.topN), RetrievalMethod.PopularFallback, None)))
      && (v.MismatchedDimensions? ==> outcome == Err(ServerError(500, "build_user_vector")))
      && (v.Vector? ==>
            && PersonalizedAs(request, db, ext, s, PoolOf(request, db, v.values, s), reranked, order, picks, outcome)
            && (outcome.Ok? ==> outcome.value.retrievalMethod == Personalized && |outcome.value.items| <= request.topN)
            && (!request.rerank && !request.diversify ==> outcome == Ok(RetrievalResponse(
                  request.userId, Take(PoolOf(request, db, v.values, s), request.topN), Personalized, None))))
  {
    reranked, order, picks := Ok([]), [], [];
    var settings := SettingsFor(request, env, ext.parseFloat);
    if settings.Err? {
      return Err(InvalidSetting(settings.error)), reranked, order, picks;
    }
    var s := settings.value;
    var clicks := db.clickHistory(request.userId, request.historyK);
    var userVec := RetrievalPgvector.NoVector;
    if clicks != [] {
      var debug;
      userVec, debug := RetrievalPgvector.BuildUserVector(
        clicks, s.halfLifeDays, db.embeddingRows(RetrievalPgvector.ClickIds(clicks)),
        ext.fromString, ext.strptime, ext.now, ext.exp);
    }
    if userVec.MismatchedDimensions? {
      return Err(ServerError(500, "build_user_vector")), reranked, order, picks;
    }
    if userVec.NoVector? {
      return Ok(RetrievalResponse(request.userId, RetrievePopular(db, request.topN), RetrievalMethod.PopularFallback, None)),
             reranked, order, picks;
    }
    var excludeIds := RetrievalPgvector.RecentSeenNewsIds(s.excludeRecentM, db.seenHistory(request.userId));
    var items := MergeCandidates(db, request.userId, userVec.values, excludeIds, s.pools, request.topN);
    if |items| > s.pools.candidatePool {
      items := items[..s.pools.candidatePool];
    }
    assert items == PoolOf(request, db, userVec.values, s);
    outcome, reranked, order, picks := Personalize(request, db, ext, s, items);
  }
}
