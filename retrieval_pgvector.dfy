// The pgvector retrieval service: the time and vector parsers, the
// user-vector builder (click ages, decay weights, the debug list and the
// weighted average), and the guards and LIMIT arithmetic of the
// underexplored and recently-seen queries. The SQL itself is an input:
// each query is given as the rows it would return before its LIMIT.
module RetrievalPgvector {
  import opened Wrappers
  import opened Numeric
  import opened Lists
  import Text
  import Sorting

  /** An embedding as the database driver returns it: NULL, an array or
      list of floats, or the pgvector text form `[x,y,...]`. */
  datatype VectorValue = NullVector | ArrayVector(values: seq<real>) | TextVector(text: string)

  /** `parse_time`. `strptime` stands for `datetime.strptime(value,
      TIME_FORMAT)` in seconds, `None` where it raises `ValueError`. */
  function ParseTime(value: Option<string>, strptime: string -> Option<real>): (r: Option<real>)
    ensures (value.None? || value.value == "") ==> r.None?
    ensures value.Some? && value.value != "" ==> r == strptime(value.value)
  {
    if value.None? || value.value == "" then None else strptime(value.value)
  }

  /** `str(value).strip().lstrip("[").rstrip("]")` */
  function VectorText(text: string): string
  {
    Text.RStripChar(Text.LStripChar(Text.Strip(text), '['), ']')
  }

  /** `parse_vector`. `fromString` stands for `np.fromstring(text, sep=",")`. */
  function ParseVector(value: VectorValue, fromString: string -> seq<real>): (r: Option<seq<real>>)
    ensures value.NullVector? ==> r.None?
    ensures value.ArrayVector? ==> r == Some(value.values)
    ensures value.TextVector? ==> (r.None? <==> VectorText(value.text) == "")
  {
    match value
    case NullVector => None
    case ArrayVector(values) => Some(values)
    case TextVector(text) =>
      var inner := VectorText(text);
      if inner == "" then None else Some(fromString(inner))
  }

  /** One row of `get_user_click_history`. */
  datatype Click = Click(newsId: string, time: Option<string>, split: string, impressionId: string)

  /** One entry of the debug list `build_user_vector` returns. */
  datatype DebugEntry = DebugEntry(newsId: string, split: string, time: Option<string>, weight: real, used: bool)

  /** The user vector: none, the weighted average, or the `ValueError` that
      `np.vstack` raises when the embeddings differ in length. */
  datatype UserVector = NoVector | Vector(values: seq<real>) | MismatchedDimensions

  /** `vectors`: each row's id mapped to its parsed embedding, a later row
      overriding an earlier one. */
  function VectorMap(rows: seq<(string, VectorValue)>, fromString: string -> seq<real>): map<string, Option<seq<real>>>
  {
    PairsMap(seq(|rows|, i requires 0 <= i < |rows| => rows[i].0),
             seq(|rows|, i requires 0 <= i < |rows| => ParseVector(rows[i].1, fromString)))
  }

  /** `vectors.get(news_id)` */
  function VecOf(vectors: map<string, Option<seq<real>>>, id: string): Option<seq<real>>
  {
    if id in vectors then vectors[id] else None
  }

  // ---------------------------------------------------------------------
  // Ages

  /** `use_fallback` is false exactly when every click time parses. */
  predicate AllTimesParse(clicks: seq<Click>, strptime: string -> Option<real>)
  {
    forall i :: 0 <= i < |clicks| ==> ParseTime(clicks[i].time, strptime).Some?
  }

  /** The fallback sort key: `int(impression_id)`, or 0 when that raises. */
  function ImpressionKey(id: string): int
  {
    Text.ParseInt(id).GetOr(0)
  }

  function ImpressionKeys(clicks: seq<Click>): (keys: seq<real>)
    ensures |keys| == |clicks|
  {
    seq(|clicks|, i requires 0 <= i < |clicks| => ImpressionKey(clicks[i].impressionId) as real)
  }

  /** The clicks in the order of `sorted(clicks, key=sort_key, reverse=True)`. */
  function FallbackOrder(clicks: seq<Click>): (order: seq<nat>)
    ensures Sorting.IsPermutation(order, |clicks|)
    ensures Sorting.SortedDesc(ImpressionKeys(clicks), order)
    ensures Sorting.Stable(ImpressionKeys(clicks), order)
  {
    Sorting.SortIndicesDesc(ImpressionKeys(clicks))
  }

  /** The news ids of `ordered_clicks`. */
  function OrderedIds(ids: seq<string>, order: seq<nat>): (r: seq<string>)
    requires Sorting.IndicesIn(order, |ids|)
    ensures |r| == |order| && forall j :: 0 <= j < |order| ==> r[j] == ids[order[j]]
  {
    seq(|order|, j requires 0 <= j < |order| => ids[order[j]])
  }

  /** `0, 1, ..., n-1` as floats. */
  function Ranks(n: nat): (r: seq<real>)
    ensures |r| == n && forall j :: 0 <= j < n ==> r[j] == j as real
  {
    seq(n, j requires 0 <= j < n => j as real)
  }

  /** `{c["news_id"]: idx for idx, c in enumerate(ordered_clicks)}` */
  function FallbackAges(clicks: seq<Click>): map<string, real>
  {
    var order := FallbackOrder(clicks);
    PairsMap(OrderedIds(ClickIds(clicks), order), Ranks(|order|))
  }

  /** Reordering distinct ids by a permutation keeps them distinct. */
  lemma PermutedDistinct(ids: seq<string>, order: seq<nat>)
    requires Sorting.IsPermutation(order, |ids|) && DistinctSeq(ids)
    ensures DistinctSeq(OrderedIds(ids, order))
  {
    var r := OrderedIds(ids, order);
    forall i, j | 0 <= i < j < |r| ensures r[i] != r[j] {
      var a, b := order[i], order[j];
      assert a != b;
      if a < b {
        assert ids[a] != ids[b];
      } else {
        assert ids[b] != ids[a];
      }
    }
  }

  /** `max((now - ts).total_seconds() / 86400.0, 0.0)` */
  function ElapsedDays(now: real, ts: real): (r: real)
    ensures r >= 0.0
  {
    MaxReal((now - ts) / 86400.0, 0.0)
  }

  /** The ages of the loop over `zip(clicks, parsed_times)`, one per click. */
  function ElapsedAgesList(clicks: seq<Click>, strptime: string -> Option<real>, now: real): (ages: seq<real>)
    requires AllTimesParse(clicks, strptime)
    ensures |ages| == |clicks|
  {
    seq(|clicks|, i requires 0 <= i < |clicks| && AllTimesParse(clicks, strptime) =>
      ElapsedDays(now, ParseTime(clicks[i].time, strptime).value))
  }

  function ClickIds(clicks: seq<Click>): (ids: seq<string>)
    ensures |ids| == |clicks| && forall i :: 0 <= i < |clicks| ==> ids[i] == clicks[i].newsId
  {
    seq(|clicks|, i requires 0 <= i < |clicks| => clicks[i].newsId)
  }

  /** `age_map` */
  function AgeMap(clicks: seq<Click>, strptime: string -> Option<real>, now: real): map<string, real>
  {
    if AllTimesParse(clicks, strptime) then PairsMap(ClickIds(clicks), ElapsedAgesList(clicks, strptime, now))
    else FallbackAges(clicks)
  }

  /** Every click has an age, and no age is negative. */
  lemma AgeMapShape(clicks: seq<Click>, strptime: string -> Option<real>, now: real)
    ensures var ages := AgeMap(clicks, strptime, now);
      (forall i :: 0 <= i < |clicks| ==> clicks[i].newsId in ages)
      && (forall id :: id in ages ==> ages[id] >= 0.0)
  {
    var ages := AgeMap(clicks, strptime, now);
    if AllTimesParse(clicks, strptime) {
      var ks := ClickIds(clicks);
      var vs := ElapsedAgesList(clicks, strptime, now);
      forall id | id in ages ensures ages[id] >= 0.0 {
        var i := LastOccurrenceOf(ks, id);
        PairsMapAt(ks, vs, i);
      }
    } else {
      var order := FallbackOrder(clicks);
      var ks := OrderedIds(ClickIds(clicks), order);
      var vs := Ranks(|order|);
      forall i | 0 <= i < |clicks| ensures clicks[i].newsId in ages {
        assert i in order;
        var idx :| 0 <= idx < |order| && order[idx] == i;
        assert ks[idx] == clicks[i].newsId;
      }
      forall id | id in ages ensures ages[id] >= 0.0 {
        var i := LastOccurrenceOf(ks, id);
        PairsMapAt(ks, vs, i);
      }
    }
  }

  /** With distinct news ids and an unparseable time, a click's age is its
      rank under the descending impression-id order. */
  lemma FallbackAgeIsRank(clicks: seq<Click>, strptime: string -> Option<real>, now: real, idx: nat)
    requires !AllTimesParse(clicks, strptime)
    requires DistinctSeq(ClickIds(clicks))
    requires idx < |clicks|
    ensures AgeMap(clicks, strptime, now)[clicks[FallbackOrder(clicks)[idx]].newsId] == idx as real
  {
    var order := FallbackOrder(clicks);
    var ks := OrderedIds(ClickIds(clicks), order);
    PermutedDistinct(ClickIds(clicks), order);
    assert LastOccurrence(ks, idx);
    assert ks[idx] == clicks[order[idx]].newsId;
    PairsMapAt(ks, Ranks(|order|), idx);
  }

  /** With every time parsed and distinct news ids, a click's age is the
      time elapsed since it, in days and never negative. */
  lemma ElapsedAgeOfClick(clicks: seq<Click>, strptime: string -> Option<real>, now: real, i: nat)
    requires AllTimesParse(clicks, strptime)
    requires DistinctSeq(ClickIds(clicks))
    requires i < |clicks|
    ensures AgeMap(clicks, strptime, now)[clicks[i].newsId]
         == MaxReal((now - ParseTime(clicks[i].time, strptime).value) / 86400.0, 0.0)
  {
    assert LastOccurrence(ClickIds(clicks), i);
    PairsMapAt(ClickIds(clicks), ElapsedAgesList(clicks, strptime, now), i);
  }

  /** The loop of lines 88-91 that fills `age_map` from the parsed times. */
  method FillElapsedAges(clicks: seq<Click>, strptime: string -> Option<real>, now: real)
    returns (ageMap: map<string, real>)
    requires AllTimesParse(clicks, strptime)
    ensures ageMap == AgeMap(clicks, strptime, now)
  {
    ghost var ks := ClickIds(clicks);
    ghost var vs := ElapsedAgesList(clicks, strptime, now);
    ageMap := map[];
    for i := 0 to |clicks|
      invariant ageMap == PairsMap(ks[..i], vs[..i])
    {
      var ts := ParseTime(clicks[i].time, strptime);
      assert ks[..i + 1][..i] == ks[..i] && vs[..i + 1][..i] == vs[..i];
      ageMap := ageMap[clicks[i].newsId := ElapsedDays(now, ts.value)];
    }
    assert ks[..|clicks|] == ks && vs[..|clicks|] == vs;
  }

  // ---------------------------------------------------------------------
  // Weights and the debug list

  /** `math.exp(-math.log(2) * age_days / half_life_days) if half_life_days > 0 else 1.0` */
  function ClickWeight(exp: real -> real, age: real, halfLife: real): real
  {
    if halfLife > 0.0 then Decay(exp, age, halfLife) else 1.0
  }

  /** Every weight is positive, whatever the age. */
  lemma ClickWeightPositive(exp: real -> real, age: real, halfLife: real)
    requires IsExp(exp)
    ensures ClickWeight(exp, age, halfLife) > 0.0
  {
  }

  function AgeOf(ages: map<string, real>, id: string): real
  {
    if id in ages then ages[id] else 0.0
  }

  /** The debug entry of one click. */
  function DebugOf(c: Click, vectors: map<string, Option<seq<real>>>, ages: map<string, real>,
                   halfLife: real, exp: real -> real): (d: DebugEntry)
    ensures d.newsId == c.newsId && d.split == c.split && d.time == c.time
    ensures d.used <==> VecOf(vectors, c.newsId).Some?
    ensures d.weight == if d.used then ClickWeight(exp, AgeOf(ages, c.newsId), halfLife) else 0.0
  {
    var used := VecOf(vectors, c.newsId).Some?;
    DebugEntry(c.newsId, c.split, c.time,
               if used then ClickWeight(exp, AgeOf(ages, c.newsId), halfLife) else 0.0, used)
  }

  /** `embeddings`: the embeddings of the clicks that have one, in click order. */
  function UsedEmbeddings(clicks: seq<Click>, vectors: map<string, Option<seq<real>>>): (es: seq<seq<real>>)
    ensures |es| <= |clicks|
  {
    if clicks == [] then []
    else
      var n := |clicks| - 1;
      var v := VecOf(vectors, clicks[n].newsId);
      UsedEmbeddings(clicks[..n], vectors) + (if v.Some? then [v.value] else [])
  }

  /** `weights`: the weights of the same clicks. */
  function UsedWeights(clicks: seq<Click>, vectors: map<string, Option<seq<real>>>, ages: map<string, real>,
                       halfLife: real, exp: real -> real): (ws: seq<real>)
    ensures |ws| == |UsedEmbeddings(clicks, vectors)|
  {
    if clicks == [] then []
    else
      var n := |clicks| - 1;
      var v := VecOf(vectors, clicks[n].newsId);
      UsedWeights(clicks[..n], vectors, ages, halfLife, exp)
        + (if v.Some? then [ClickWeight(exp, AgeOf(ages, clicks[n].newsId), halfLife)] else [])
  }

  /** No embedding is used exactly when no click has one. */
  lemma {:induction false} UsedEmbeddingsEmpty(clicks: seq<Click>, vectors: map<string, Option<seq<real>>>)
    ensures UsedEmbeddings(clicks, vectors) == [] <==>
      forall i :: 0 <= i < |clicks| ==> VecOf(vectors, clicks[i].newsId).None?
  {
    if clicks != [] {
      var n := |clicks| - 1;
      UsedEmbeddingsEmpty(clicks[..n], vectors);
      assert forall i :: 0 <= i < n ==> clicks[..n][i] == clicks[i];
    }
  }

  /** Positive weights have a positive sum. */
  lemma {:induction false} UsedWeightsPositive(clicks: seq<Click>, vectors: map<string, Option<seq<real>>>,
                                               ages: map<string, real>, halfLife: real, exp: real -> real)
    requires IsExp(exp)
    ensures var ws := UsedWeights(clicks, vectors, ages, halfLife, exp);
      (forall i :: 0 <= i < |ws| ==> ws[i] > 0.0) && (ws != [] ==> Sum(ws) > 0.0)
  {
    if clicks != [] {
      var n := |clicks| - 1;
      UsedWeightsPositive(clicks[..n], vectors, ages, halfLife, exp);
      ClickWeightPositive(exp, AgeOf(ages, clicks[n].newsId), halfLife);
      var ws := UsedWeights(clicks, vectors, ages, halfLife, exp);
      var pre := UsedWeights(clicks[..n], vectors, ages, halfLife, exp);
      if ws != pre {
        assert ws[..|ws| - 1] == pre;
        if pre != [] {
          assert Sum(ws) == Sum(pre) + ws[|ws| - 1];
        }
      }
    }
  }

  // ---------------------------------------------------------------------
  // The weighted average

  /** `np.vstack` accepts the embeddings: they all have the first one's length. */
  predicate SameDim(es: seq<seq<real>>)
  {
    forall i :: 0 <= i < |es| ==> |es[i]| == |es[0]|
  }

  /** Σ w_i · e_i[j] */
  function WeightedSum(es: seq<seq<real>>, ws: seq<real>, j: nat): real
    requires |es| == |ws| && forall i :: 0 <= i < |es| ==> j < |es[i]|
  {
    if es == [] then 0.0
    else
      var n := |es| - 1;
      WeightedSum(es[..n], ws[..n], j) + ws[n] * es[n][j]
  }

  /** `np.average(vectors, axis=0, weights=weights)` */
  function WeightedAverage(es: seq<seq<real>>, ws: seq<real>): (r: seq<real>)
    requires |es| == |ws| && es != [] && SameDim(es) && Sum(ws) != 0.0
    ensures |r| == |es[0]|
  {
    seq(|es[0]|, j requires 0 <= j < |es[0]| => WeightedSum(es, ws, j) / Sum(ws))
  }

  /** Weighting copies of one embedding scales it by the weight total. */
  lemma {:induction false} WeightedSumOfCopies(es: seq<seq<real>>, ws: seq<real>, e: seq<real>, j: nat)
    requires |es| == |ws| && forall i :: 0 <= i < |es| ==> es[i] == e
    requires j < |e|
    ensures WeightedSum(es, ws, j) == Sum(ws) * e[j]
  {
    if es != [] {
      var n := |es| - 1;
      WeightedSumOfCopies(es[..n], ws[..n], e, j);
      assert ws[..n] + [ws[n]] == ws;
    }
  }

  /** Averaging copies of one embedding gives that embedding back; in
      particular a single used click yields exactly its embedding. */
  lemma AverageOfCopies(es: seq<seq<real>>, ws: seq<real>, e: seq<real>)
    requires |es| == |ws| && es != [] && forall i :: 0 <= i < |es| ==> es[i] == e
    requires Sum(ws) != 0.0
    ensures SameDim(es) && WeightedAverage(es, ws) == e
  {
    forall j | 0 <= j < |e| ensures WeightedAverage(es, ws)[j] == e[j] {
      WeightedSumOfCopies(es, ws, e, j);
    }
  }

  /** The result of lines 116-124 from the gathered embeddings and weights. */
  function UserVectorOf(es: seq<seq<real>>, ws: seq<real>): UserVector
    requires |es| == |ws|
  {
    if es == [] then NoVector
    else if Sum(ws) == 0.0 then NoVector
    else if !SameDim(es) then MismatchedDimensions
    else Vector(WeightedAverage(es, ws))
  }

  /** What `build_user_vector` computes. */
  function UserVectorFor(clicks: seq<Click>, halfLife: real, rows: seq<(string, VectorValue)>,
                         fromString: string -> seq<real>, strptime: string -> Option<real>,
                         now: real, exp: real -> real): UserVector
  {
    var vectors := VectorMap(rows, fromString);
    var ages := AgeMap(clicks, strptime, now);
    UserVectorOf(UsedEmbeddings(clicks, vectors), UsedWeights(clicks, vectors, ages, halfLife, exp))
  }

  /** With positive weights there is no user vector exactly when nothing
      was gathered, and a lone embedding is the user vector itself. */
  lemma UserVectorOfCases(es: seq<seq<real>>, ws: seq<real>)
    requires |es| == |ws|
    requires ws != [] ==> Sum(ws) > 0.0
    ensures UserVectorOf(es, ws) == NoVector <==> es == []
    ensures |es| == 1 ==> UserVectorOf(es, ws) == Vector(es[0])
  {
    if |es| == 1 {
      AverageOfCopies(es, ws, es[0]);
    }
  }

  /** The user vector is missing exactly when no click has an embedding. */
  lemma UserVectorMissing(clicks: seq<Click>, halfLife: real, rows: seq<(string, VectorValue)>,
                          fromString: string -> seq<real>, strptime: string -> Option<real>,
                          now: real, exp: real -> real)
    requires IsExp(exp)
    ensures UserVectorFor(clicks, halfLife, rows, fromString, strptime, now, exp) == NoVector <==>
      forall i :: 0 <= i < |clicks| ==> VecOf(VectorMap(rows, fromString), clicks[i].newsId).None?
  {
    var vectors := VectorMap(rows, fromString);
    var ages := AgeMap(clicks, strptime, now);
    UsedEmbeddingsEmpty(clicks, vectors);
    UsedWeightsPositive(clicks, vectors, ages, halfLife, exp);
    UserVectorOfCases(UsedEmbeddings(clicks, vectors), UsedWeights(clicks, vectors, ages, halfLife, exp));
  }

  /** A single gathered embedding is the user vector. */
  lemma UserVectorSingle(clicks: seq<Click>, halfLife: real, rows: seq<(string, VectorValue)>,
                         fromString: string -> seq<real>, strptime: string -> Option<real>,
                         now: real, exp: real -> real)
    requires IsExp(exp)
    requires |UsedEmbeddings(clicks, VectorMap(rows, fromString))| == 1
    ensures UserVectorFor(clicks, halfLife, rows, fromString, strptime, now, exp)
         == Vector(UsedEmbeddings(clicks, VectorMap(rows, fromString))[0])
  {
    var vectors := VectorMap(rows, fromString);
    var ages := AgeMap(clicks, strptime, now);
    UsedWeightsPositive(clicks, vectors, ages, halfLife, exp);
    UserVectorOfCases(UsedEmbeddings(clicks, vectors), UsedWeights(clicks, vectors, ages, halfLife, exp));
  }

  /** The loop of lines 97-114: one debug entry per click, and the weights
      and embeddings of the clicks that have an embedding. */
  method WeighClicks(clicks: seq<Click>, vectors: map<string, Option<seq<real>>>, ages: map<string, real>,
                     halfLife: real, exp: real -> real)
    returns (weights: seq<real>, embeddings: seq<seq<real>>, debug: seq<DebugEntry>)
    ensures embeddings == UsedEmbeddings(clicks, vectors)
    ensures weights == UsedWeights(clicks, vectors, ages, halfLife, exp)
    ensures |debug| == |clicks|
    ensures forall i :: 0 <= i < |clicks| ==> debug[i] == DebugOf(clicks[i], vectors, ages, halfLife, exp)
  {
    weights, embeddings, debug := [], [], [];
    for i := 0 to |clicks|
      invariant embeddings == UsedEmbeddings(clicks[..i], vectors)
      invariant weights == UsedWeights(clicks[..i], vectors, ages, halfLife, exp)
      invariant |debug| == i
      invariant forall t :: 0 <= t < i ==> debug[t] == DebugOf(clicks[t], vectors, ages, halfLife, exp)
    {
      assert clicks[..i + 1][..i] == clicks[..i];
      var newsId := clicks[i].newsId;
      var vec := VecOf(vectors, newsId);
      var weight := ClickWeight(exp, AgeOf(ages, newsId), halfLife);
      var used := vec.Some?;
      debug := debug + [DebugEntry(newsId, clicks[i].split, clicks[i].time, if used then weight else 0.0, used)];
      if vec.Some? {
        embeddings := embeddings + [vec.value];
        weights := weights + [weight];
      }
    }
    assert clicks[..|clicks|] == clicks;
  }

  /** `build_user_vector`. `rows` are the (news_id, embedding) rows of the
      clicked items, `now` is `datetime.utcnow()` in seconds. */
  method BuildUserVector(clicks: seq<Click>, halfLife: real, rows: seq<(string, VectorValue)>,
                         fromString: string -> seq<real>, strptime: string -> Option<real>,
                         now: real, exp: real -> real)
    returns (userVec: UserVector, debug: seq<DebugEntry>)
    ensures clicks == [] ==> userVec == NoVector && debug == []
    ensures userVec == UserVectorFor(clicks, halfLife, rows, fromString, strptime, now, exp)
    ensures |debug| == |clicks|
    ensures forall i :: 0 <= i < |clicks| ==>
      debug[i] == DebugOf(clicks[i], VectorMap(rows, fromString), AgeMap(clicks, strptime, now), halfLife, exp)
  {
    if clicks == [] {
      return NoVector, [];
    }
    var vectors := VectorMap(rows, fromString);
    var ageMap: map<string, real>;
    if AllTimesParse(clicks, strptime) {
      ageMap := FillElapsedAges(clicks, strptime, now);
    } else {
      ageMap := FallbackAges(clicks);
    }
    var weights, embeddings;
    weights, embeddings, debug := WeighClicks(clicks, vectors, ageMap, halfLife, exp);
    if embeddings == [] {
      return NoVector, debug;
    }
    if Sum(weights) == 0.0 {
      return NoVector, debug;
    }
    if !SameDim(embeddings) {
      return MismatchedDimensions, debug;
    }
    userVec := Vector(WeightedAverage(embeddings, weights));
  }

  // ---------------------------------------------------------------------
  // Query guards

  /** `max(1, int(math.ceil(top_n / max_nodes)))`: enough items per
      category for `max_nodes` categories to cover `top_n`, and no more. */
  function PerCategory(topN: int, maxNodes: int): (r: int)
    requires maxNodes != 0
    ensures r >= 1
    ensures maxNodes > 0 ==> topN <= r * maxNodes
    ensures maxNodes > 0 && r > 1 ==> (r - 1) * maxNodes < topN
  {
    var q := topN as real / maxNodes as real;
    var c := Ceil(q);
    if maxNodes > 0 then
      CeilTimes(topN, maxNodes, c);
      MaxInt(1, c)
    else MaxInt(1, c)
  }

  /** `c = ceil(t / d)` for a positive `d` means `(c-1)·d < t <= c·d`. */
  lemma CeilTimes(t: int, d: int, c: int)
    requires d > 0 && t as real / d as real <= c as real < t as real / d as real + 1.0
    ensures t <= c * d && (c - 1) * d < t
  {
    var tr, dr, cr := t as real, d as real, c as real;
    var q := tr / dr;
    assert q * dr == tr;
    MulNonNeg(cr - q, dr);
    assert (cr - q) * dr == cr * dr - q * dr;
    MulPos(q + 1.0 - cr, dr);
    var gap := q + 1.0 - cr;
    assert gap * dr == q * dr + dr - cr * dr;
    LinearGap(tr, dr, q * dr, cr * dr, gap * dr);
    assert (c * d) as real == cr * dr;
    assert ((c - 1) * d) as real == cr * dr - dr;
  }

  lemma LinearGap(tr: real, dr: real, qd: real, cd: real, gd: real)
    requires qd == tr && gd > 0.0 && gd == qd + dr - cd
    ensures cd - dr < tr
  {
  }

  lemma MulNonNeg(a: real, b: real)
    requires a >= 0.0 && b >= 0.0
    ensures a * b >= 0.0
  {
  }

  lemma MulPos(a: real, b: real)
    requires a > 0.0 && b > 0.0
    ensures a * b > 0.0
  {
  }

  /** The parameters of the underexplored query, or `None` when
      `retrieve_underexplored` returns `[]` without querying. */
  datatype UnderexploredQuery = UnderexploredQuery(maxNodes: int, perCategory: int, limit: int, exclude: set<string>)

  function UnderexploredPlan(topN: int, exclude: set<string>, maxNodes: int): (q: Option<UnderexploredQuery>)
    requires topN > 0 ==> maxNodes != 0
    ensures q.None? <==> topN <= 0
    ensures q.Some? ==> q.value.limit == topN && q.value.perCategory >= 1 && q.value.exclude == exclude
  {
    if topN <= 0 then None
    else Some(UnderexploredQuery(maxNodes, PerCategory(topN, maxNodes), topN, exclude))
  }

  /** `retrieve_underexplored`: `ranked` gives the query's rows before its
      LIMIT for the given parameters. */
  function RetrieveUnderexplored<R>(topN: int, exclude: set<string>, maxNodes: int,
                                    ranked: UnderexploredQuery -> seq<R>): (r: seq<R>)
    requires topN > 0 ==> maxNodes != 0
    ensures topN <= 0 ==> r == []
    ensures |r| <= MaxInt(topN, 0)
  {
    var plan := UnderexploredPlan(topN, exclude, maxNodes);
    if plan.None? then [] else Take(ranked(plan.value), topN)
  }

  /** `get_recent_seen_news_ids`: `history` is the user's impressed news ids
      in descending impression order; the first `m` of them. */
  function RecentSeenNewsIds(m: int, history: seq<string>): (r: seq<string>)
    ensures m <= 0 ==> r == []
    ensures |r| <= MaxInt(m, 0)
    ensures |r| <= |history| && forall i :: 0 <= i < |r| ==> r[i] == history[i]
  {
    if m <= 0 then [] else Take(history, m)
  }
}
