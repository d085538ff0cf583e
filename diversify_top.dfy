// The greedy diversifier of apps/backend/app/services/diversify_top.py:
// min-max normalisation, explore-level weights, the interest-node score
// map, and the K-step argmax selection with category and subcategory caps.
module DiversifyTop {
  import opened Wrappers
  import opened Numeric
  import opened FeedTypes
  import Sorting
  import opened Lists

  // ---------------------------------------------------------------------
  // normalize_scores
  // ---------------------------------------------------------------------

  lemma ScaleMonotone(a: real, b: real, lo: real, d: real)
    requires a <= b && d > 0.0
    ensures (a - lo) / d <= (b - lo) / d
  {
    assert (b - lo) / d - (a - lo) / d == (b - a) / d;
  }

  lemma ScaleUnit(v: real, lo: real, hi: real)
    requires lo <= v <= hi && lo < hi
    ensures 0.0 <= (v - lo) / (hi - lo) <= 1.0
    ensures v == lo ==> (v - lo) / (hi - lo) == 0.0
    ensures v == hi ==> (v - lo) / (hi - lo) == 1.0
  {
    ScaleMonotone(v, hi, lo, hi - lo);
    ScaleMonotone(lo, v, lo, hi - lo);
  }

  /** `(v - lo) / (hi - lo)` for every value. */
  function Scale(values: seq<real>, lo: real, hi: real): (r: seq<real>)
    requires lo < hi
    ensures |r| == |values| && forall i :: 0 <= i < |r| ==> r[i] == (values[i] - lo) / (hi - lo)
  {
    seq(|values|, i requires 0 <= i < |values| => (values[i] - lo) / (hi - lo))
  }

  lemma ScaleInUnit(values: seq<real>, lo: real, hi: real)
    requires lo < hi && forall i :: 0 <= i < |values| ==> lo <= values[i] <= hi
    ensures var r := Scale(values, lo, hi);
      (forall i :: 0 <= i < |r| ==> 0.0 <= r[i] <= 1.0)
      && (forall i :: 0 <= i < |r| && values[i] == lo ==> r[i] == 0.0)
      && (forall i :: 0 <= i < |r| && values[i] == hi ==> r[i] == 1.0)
  {
    var r := Scale(values, lo, hi);
    forall i | 0 <= i < |r|
      ensures 0.0 <= r[i] <= 1.0 && (values[i] == lo ==> r[i] == 0.0) && (values[i] == hi ==> r[i] == 1.0)
    {
      ScaleUnit(values[i], lo, hi);
    }
  }

  lemma ScaleKeepsOrder(values: seq<real>, lo: real, hi: real)
    requires lo < hi
    ensures var r := Scale(values, lo, hi);
      forall i, j :: 0 <= i < |r| && 0 <= j < |r| && values[i] <= values[j] ==> r[i] <= r[j]
  {
    var r := Scale(values, lo, hi);
    forall i, j | 0 <= i < |r| && 0 <= j < |r| && values[i] <= values[j] ensures r[i] <= r[j] {
      ScaleMonotone(values[i], values[j], lo, hi - lo);
    }
  }

  /** Min-max normalisation: constant input maps to zeros; otherwise the
      minimum maps to 0, the maximum to 1, and the order of values is kept. */
  function NormalizeScores(values: seq<real>): (r: seq<real>)
    ensures |r| == |values|
    ensures values != [] && Max(values) == Min(values) ==> forall i :: 0 <= i < |r| ==> r[i] == 0.0
    ensures values != [] && Max(values) != Min(values) ==>
      (forall i :: 0 <= i < |r| ==> 0.0 <= r[i] <= 1.0)
      && (forall i :: 0 <= i < |r| && values[i] == Min(values) ==> r[i] == 0.0)
      && (forall i :: 0 <= i < |r| && values[i] == Max(values) ==> r[i] == 1.0)
    ensures forall i, j :: 0 <= i < |r| && 0 <= j < |r| && values[i] <= values[j] ==> r[i] <= r[j]
  {
    if values == [] then []
    else
      var lo := Min(values);
      var hi := Max(values);
      if hi - lo == 0.0 then seq(|values|, _ => 0.0)
      else
        ScaleInUnit(values, lo, hi);
        ScaleKeepsOrder(values, lo, hi);
        Scale(values, lo, hi)
  }

  // ---------------------------------------------------------------------
  // compute_weights
  // ---------------------------------------------------------------------

  /** W_REL_BASE, W_TOP_BASE, W_REP_BASE, W_COV_BASE. */
  datatype Bases = Bases(rel: real, top: real, rep: real, cov: real)

  /** The environment defaults of the four base weights. */
  const DefaultBases := Bases(1.0, 0.5, 0.6, 0.4)

  /** Weights of relevance, interest-node bonus, redundancy and coverage. */
  datatype Weights = Weights(rel: real, top: real, rep: real, cov: real)

  /** The share of its base the relevance weight keeps at a positive level:
      `1 - 0.7 * l` for the clamped level `l`. */
  function RelShare(exploreLevel: real): (f: real)
    ensures 0.3 <= f <= 1.0
  {
    1.0 - 0.7 * Clamp(exploreLevel, 0.0, 1.0)
  }

  /** The share of its base each exploration weight gets at a positive level:
      `0.3 + 0.7 * l` for the clamped level `l`. */
  function ExploreShare(exploreLevel: real): (f: real)
    ensures 0.3 <= f <= 1.0
  {
    0.3 + 0.7 * Clamp(exploreLevel, 0.0, 1.0)
  }

  /** `w_rel`: the whole base at a clamped level of 0, else its relevance share. */
  function RelWeight(exploreLevel: real, base: real): real
  {
    if Clamp(exploreLevel, 0.0, 1.0) <= 0.0 then base else base * RelShare(exploreLevel)
  }

  /** `w_top`, `w_rep`, `w_cov`: nothing at a clamped level of 0, else the
      exploration share of the base. */
  function ExploreWeight(exploreLevel: real, base: real): real
  {
    if Clamp(exploreLevel, 0.0, 1.0) <= 0.0 then 0.0 else base * ExploreShare(exploreLevel)
  }

  /** Relevance only at explore level 0; otherwise the clamped level moves
      weight from relevance to the three exploration terms. */
  function ComputeWeights(exploreLevel: real, b: Bases): (w: Weights)
    ensures exploreLevel <= 0.0 ==> w == Weights(b.rel, 0.0, 0.0, 0.0)
    ensures exploreLevel > 0.0 ==>
      var l := Clamp(exploreLevel, 0.0, 1.0);
      w == Weights(b.rel * (1.0 - 0.7 * l), b.top * (0.3 + 0.7 * l),
                   b.rep * (0.3 + 0.7 * l), b.cov * (0.3 + 0.7 * l))
  {
    Weights(RelWeight(exploreLevel, b.rel), ExploreWeight(exploreLevel, b.top),
            ExploreWeight(exploreLevel, b.rep), ExploreWeight(exploreLevel, b.cov))
  }

  lemma ScaleLe(b: real, x: real, y: real)
    requires b >= 0.0 && x <= y
    ensures b * x <= b * y
  {
    assert b * y - b * x == b * (y - x);
  }

  /** A higher level gives relevance a smaller share and exploration a larger one. */
  lemma SharesShift(l1: real, l2: real)
    requires l1 <= l2
    ensures RelShare(l2) <= RelShare(l1) && ExploreShare(l1) <= ExploreShare(l2)
  {
    ClampMono(l1, l2, 0.0, 1.0);
  }

  /** With a non-negative base, the relevance weight falls as a positive level rises. */
  lemma RelWeightFalls(l1: real, l2: real, base: real)
    requires 0.0 < l1 <= l2 && base >= 0.0
    ensures RelWeight(l2, base) <= RelWeight(l1, base)
  {
    SharesShift(l1, l2);
    ScaleLe(base, RelShare(l2), RelShare(l1));
  }

  /** With a non-negative base, an exploration weight rises with a positive level. */
  lemma ExploreWeightRises(l1: real, l2: real, base: real)
    requires 0.0 < l1 <= l2 && base >= 0.0
    ensures ExploreWeight(l1, base) <= ExploreWeight(l2, base)
  {
    SharesShift(l1, l2);
    ScaleLe(base, ExploreShare(l1), ExploreShare(l2));
  }

  /** With non-negative bases, raising the explore level never raises the
      relevance weight and never lowers the three exploration weights. */
  lemma WeightsShiftWithLevel(l1: real, l2: real, b: Bases)
    requires 0.0 < l1 <= l2
    requires b.rel >= 0.0 && b.top >= 0.0 && b.rep >= 0.0 && b.cov >= 0.0
    ensures var w1, w2 := ComputeWeights(l1, b), ComputeWeights(l2, b);
      w2.rel <= w1.rel && w1.top <= w2.top && w1.rep <= w2.rep && w1.cov <= w2.cov
  {
    RelWeightFalls(l1, l2, b.rel);
    ExploreWeightRises(l1, l2, b.top);
    ExploreWeightRises(l1, l2, b.rep);
    ExploreWeightRises(l1, l2, b.cov);
  }

  // ---------------------------------------------------------------------
  // load_user_top_nodes: the normalised interest-node map
  // ---------------------------------------------------------------------

  /** One `(category, subcategory, underexplored_score)` row of user_top_nodes. */
  datatype TopNodeRow = TopNodeRow(category: Option<string>, subcategory: Option<string>, score: Option<real>)

  function RowKey(r: TopNodeRow): NodeKey
  {
    (OrEmpty(r.category), OrEmpty(r.subcategory))
  }

  /** `float(score or 0.0)` */
  function RowScore(r: TopNodeRow): real
  {
    r.score.GetOr(0.0)
  }

  /** The score of every row, in row order (the `scores` list). */
  function RowScores(rows: seq<TopNodeRow>): (s: seq<real>)
    ensures |s| == |rows| && forall i :: 0 <= i < |rows| ==> s[i] == RowScore(rows[i])
  {
    seq(|rows|, i requires 0 <= i < |rows| => RowScore(rows[i]))
  }

  /** The key of every row, in row order. */
  function RowKeys(rows: seq<TopNodeRow>): (ks: seq<NodeKey>)
    ensures |ks| == |rows| && forall i :: 0 <= i < |rows| ==> ks[i] == RowKey(rows[i])
  {
    seq(|rows|, i requires 0 <= i < |rows| => RowKey(rows[i]))
  }

  lemma RowScoresSnoc(rows: seq<TopNodeRow>, i: nat)
    requires i < |rows|
    ensures RowScores(rows[..i + 1]) == RowScores(rows[..i]) + [RowScore(rows[i])]
  {
  }

  /** The keys of `node_map` in insertion order: each key where it first occurs. */
  function DistinctKeys(rows: seq<TopNodeRow>): (ks: seq<NodeKey>)
    ensures |ks| <= |rows| && DistinctSeq(ks)
    ensures forall key :: key in ks <==> key in RowKeys(rows)
  {
    if rows == [] then []
    else
      var pre := rows[..|rows| - 1];
      var p := DistinctKeys(pre);
      var key := RowKey(rows[|rows| - 1]);
      assert RowKeys(rows) == RowKeys(pre) + [key];
      if key in p then p else p + [key]
  }

  lemma DistinctKeysSnoc(rows: seq<TopNodeRow>, i: nat)
    requires i < |rows|
    ensures var p := DistinctKeys(rows[..i]);
      DistinctKeys(rows[..i + 1]) == if RowKey(rows[i]) in p then p else p + [RowKey(rows[i])]
  {
    assert rows[..i + 1][..i] == rows[..i];
  }

  /** `node_map[key]`: the score of the last row with that key. */
  function NodeValue(rows: seq<TopNodeRow>, key: NodeKey): real
  {
    if rows == [] then 0.0
    else if RowKey(rows[|rows| - 1]) == key then RowScore(rows[|rows| - 1])
    else NodeValue(rows[..|rows| - 1], key)
  }

  /** `list(node_map.values())` */
  function NodeValues(rows: seq<TopNodeRow>): (vs: seq<real>)
    ensures |vs| == |DistinctKeys(rows)|
  {
    var ks := DistinctKeys(rows);
    seq(|ks|, j requires 0 <= j < |ks| => NodeValue(rows, ks[j]))
  }

  /** The map sending `keys[j]` to `values[j]`. */
  function Positional(keys: seq<NodeKey>, values: seq<real>): (m: map<NodeKey, real>)
    requires |keys| <= |values| && DistinctSeq(keys)
    ensures forall key :: key in m <==> key in keys
    ensures forall j :: 0 <= j < |keys| ==> m[keys[j]] == values[j]
  {
    if keys == [] then map[]
    else
      var pre := keys[..|keys| - 1];
      assert keys == pre + [keys[|keys| - 1]];
      Positional(pre, values)[keys[|keys| - 1] := values[|keys| - 1]]
  }

  /** Values drawn from [0, 1] stay in [0, 1]. */
  lemma {:induction false} PositionalInUnit(keys: seq<NodeKey>, values: seq<real>)
    requires |keys| <= |values| && DistinctSeq(keys)
    requires forall j :: 0 <= j < |values| ==> 0.0 <= values[j] <= 1.0
    ensures forall key :: key in Positional(keys, values) ==> 0.0 <= Positional(keys, values)[key] <= 1.0
  {
    if keys != [] {
      PositionalInUnit(keys[..|keys| - 1], values);
    }
  }

  lemma PositionalSnoc(keys: seq<NodeKey>, values: seq<real>, j: nat)
    requires j < |keys| <= |values| && DistinctSeq(keys)
    ensures Positional(keys[..j + 1], values) == Positional(keys[..j], values)[keys[j] := values[j]]
  {
    assert keys[..j + 1][..j] == keys[..j];
  }

  /** `for idx, key in enumerate(keys): normalized_map[key] = normalized[idx]` */
  method FillPositional(keys: seq<NodeKey>, normalized: seq<real>) returns (m: map<NodeKey, real>)
    requires |keys| <= |normalized| && DistinctSeq(keys)
    ensures m == Positional(keys, normalized)
  {
    m := map[];
    for j := 0 to |keys|
      invariant m == Positional(keys[..j], normalized)
    {
      PositionalSnoc(keys, normalized, j);
      m := m[keys[j] := normalized[j]];
    }
    assert keys[..|keys|] == keys;
  }

  /** The `node_map` / `scores` fill loop followed by the `normalized_map`
      loop, exactly as the source writes them: the j-th distinct key receives
      the j-th normalised ROW score. */
  method LoadUserTopNodesAsWritten(rows: seq<TopNodeRow>) returns (m: map<NodeKey, real>)
    ensures m == Positional(DistinctKeys(rows), NormalizeScores(RowScores(rows)))
  {
    var keys: seq<NodeKey> := [];
    var scores: seq<real> := [];
    for i := 0 to |rows|
      invariant keys == DistinctKeys(rows[..i])
      invariant scores == RowScores(rows[..i])
    {
      DistinctKeysSnoc(rows, i);
      RowScoresSnoc(rows, i);
      var key := RowKey(rows[i]);
      if key !in keys {
        keys := keys + [key];
      }
      scores := scores + [RowScore(rows[i])];
    }
    assert rows[..|rows|] == rows;
    var normalized := NormalizeScores(scores);
    m := FillPositional(keys, normalized);
  }

  lemma NodeValueSnoc(rows: seq<TopNodeRow>, i: nat, key: NodeKey)
    requires i < |rows|
    ensures NodeValue(rows[..i + 1], key) ==
      if RowKey(rows[i]) == key then RowScore(rows[i]) else NodeValue(rows[..i], key)
  {
    assert rows[..i + 1][..i] == rows[..i];
  }

  /** The intended node map: every node key of the rows, mapped to its own
      node's score after min-max normalisation over the nodes; every value
      lies in [0, 1]. */
  function TopNodeMap(rows: seq<TopNodeRow>): (m: map<NodeKey, real>)
    ensures forall key :: key in m <==> key in RowKeys(rows)
    ensures forall key :: key in m ==> 0.0 <= m[key] <= 1.0
  {
    var keys := DistinctKeys(rows);
    var normalized := NormalizeScores(NodeValues(rows));
    PositionalInUnit(keys, normalized);
    Positional(keys, normalized)
  }

  /** `keys` and `node_map` after the fill loop has read `rows`. */
  ghost predicate NodesFolded(rows: seq<TopNodeRow>, keys: seq<NodeKey>, nodeMap: map<NodeKey, real>)
  {
    keys == DistinctKeys(rows)
    && (forall key :: key in nodeMap <==> key in keys)
    && (forall key :: key in nodeMap ==> nodeMap[key] == NodeValue(rows, key))
  }

  /** One iteration of the fill loop: remember a new key, overwrite its score. */
  method FoldNodeRow(rows: seq<TopNodeRow>, i: nat, keys: seq<NodeKey>, nodeMap: map<NodeKey, real>)
    returns (keys': seq<NodeKey>, nodeMap': map<NodeKey, real>)
    requires i < |rows| && NodesFolded(rows[..i], keys, nodeMap)
    ensures NodesFolded(rows[..i + 1], keys', nodeMap')
  {
    DistinctKeysSnoc(rows, i);
    forall key ensures NodeValue(rows[..i + 1], key) ==
      if RowKey(rows[i]) == key then RowScore(rows[i]) else NodeValue(rows[..i], key)
    {
      NodeValueSnoc(rows, i, key);
    }
    var key := RowKey(rows[i]);
    keys' := keys;
    if key !in keys {
      keys' := keys + [key];
    }
    nodeMap' := nodeMap[key := RowScore(rows[i])];
    assert keys' == DistinctKeys(rows[..i + 1]);
    assert forall k :: k in nodeMap' <==> k in keys';
  }

  /** `list(node_map.values())` read off the filled map. */
  lemma NodeMapValues(rows: seq<TopNodeRow>, keys: seq<NodeKey>, nodeMap: map<NodeKey, real>)
    requires NodesFolded(rows, keys, nodeMap)
    ensures forall j :: 0 <= j < |keys| ==> keys[j] in nodeMap
    ensures seq(|keys|, j requires 0 <= j < |keys| => nodeMap[keys[j]]) == NodeValues(rows)
  {
  }

  /** The same loops with the normalisation taken over the node values, so
      that every key receives its own node's normalised score. */
  method LoadUserTopNodes(rows: seq<TopNodeRow>) returns (m: map<NodeKey, real>)
    ensures m == TopNodeMap(rows)
  {
    var keys: seq<NodeKey> := [];
    var nodeMap: map<NodeKey, real> := map[];
    for i := 0 to |rows|
      invariant NodesFolded(rows[..i], keys, nodeMap)
    {
      keys, nodeMap := FoldNodeRow(rows, i, keys, nodeMap);
    }
    assert rows[..|rows|] == rows;
    NodeMapValues(rows, keys, nodeMap);
    var values := seq(|keys|, j requires 0 <= j < |keys| => nodeMap[keys[j]]);
    var normalized := NormalizeScores(values);
    m := FillPositional(keys, normalized);
  }

  function DuplicateRows(): seq<TopNodeRow>
  {
    [TopNodeRow(Some("a"), Some("x"), Some(1.0)),
     TopNodeRow(Some("a"), Some("x"), Some(5.0)),
     TopNodeRow(Some("b"), Some("y"), Some(3.0))]
  }

  lemma DuplicateRowsKeys()
    ensures DistinctKeys(DuplicateRows()) == [("a", "x"), ("b", "y")]
  {
    var rows := DuplicateRows();
    assert rows[..2][..1] == rows[..1] && rows[..1][..0] == [];
    assert DistinctKeys(rows[..1]) == [("a", "x")];
    assert DistinctKeys(rows[..2]) == [("a", "x")];
  }

  lemma NormalizeOneFiveThree()
    ensures NormalizeScores([1.0, 5.0, 3.0]) == [0.0, 1.0, 0.5]
  {
    var s := [1.0, 5.0, 3.0];
    assert s[..2] == [1.0, 5.0] && s[..2][..1] == [1.0];
    assert Min(s) == 1.0 && Max(s) == 5.0;
  }

  lemma NormalizeFiveThree()
    ensures NormalizeScores([5.0, 3.0]) == [1.0, 0.0]
  {
    var s := [5.0, 3.0];
    assert s[..1] == [5.0];
    assert Min(s) == 3.0 && Max(s) == 5.0;
  }

  lemma DuplicateRowsValues()
    ensures RowScores(DuplicateRows()) == [1.0, 5.0, 3.0]
    ensures NodeValues(DuplicateRows()) == [5.0, 3.0]
  {
    var rows := DuplicateRows();
    DuplicateRowsKeys();
    assert rows[..2][..1] == rows[..1];
    assert NodeValue(rows, ("a", "x")) == 5.0;
    assert NodeValue(rows, ("b", "y")) == 3.0;
  }

  /** Three rows where one key repeats: the as-written map gives the node with
      the LOWEST score the bonus 1.0, the corrected map gives it 0.0. */
  lemma DuplicateKeyMisaligns()
    ensures var rows := DuplicateRows();
      var asWritten := Positional(DistinctKeys(rows), NormalizeScores(RowScores(rows)));
      var corrected := Positional(DistinctKeys(rows), NormalizeScores(NodeValues(rows)));
      && asWritten[("a", "x")] == 0.0 && asWritten[("b", "y")] == 1.0
      && corrected[("a", "x")] == 1.0 && corrected[("b", "y")] == 0.0
  {
    var rows := DuplicateRows();
    DuplicateRowsKeys();
    var ks := DistinctKeys(rows);
    DuplicateRowsValues();
    NormalizeOneFiveThree();
    NormalizeFiveThree();
    assert ks[1] == ("b", "y") && ks[0] == ("a", "x");
  }

  /** When no key repeats, both forms agree. */
  lemma {:induction false} DistinctRowsAgree(rows: seq<TopNodeRow>)
    requires DistinctSeq(RowKeys(rows))
    ensures DistinctKeys(rows) == RowKeys(rows)
    ensures NodeValues(rows) == RowScores(rows)
  {
    DistinctKeysOfDistinct(rows);
    var ks := DistinctKeys(rows);
    forall j | 0 <= j < |ks| ensures NodeValue(rows, ks[j]) == RowScore(rows[j]) {
      NodeValueOfDistinct(rows, j);
    }
  }

  lemma {:induction false} DistinctKeysOfDistinct(rows: seq<TopNodeRow>)
    requires DistinctSeq(RowKeys(rows))
    ensures DistinctKeys(rows) == RowKeys(rows)
  {
    if rows != [] {
      var pre := rows[..|rows| - 1];
      assert RowKeys(rows) == RowKeys(pre) + [RowKey(rows[|rows| - 1])];
      DistinctKeysOfDistinct(pre);
    }
  }

  lemma {:induction false} NodeValueOfDistinct(rows: seq<TopNodeRow>, j: nat)
    requires DistinctSeq(RowKeys(rows)) && j < |rows|
    ensures NodeValue(rows, RowKey(rows[j])) == RowScore(rows[j])
    decreases |rows|
  {
    if j < |rows| - 1 {
      var pre := rows[..|rows| - 1];
      assert RowKeys(rows) == RowKeys(pre) + [RowKey(rows[|rows| - 1])];
      NodeValueOfDistinct(pre, j);
    }
  }

  // ---------------------------------------------------------------------
  // diversify_greedy: the selection specification
  // ---------------------------------------------------------------------

  /** What the selection loop reads of candidate `idx`: `category or ""`,
      `subcategory or ""`, its normalised relevance, its node bonus, and
      whether it already carries `_selected`. */
  datatype Cand = Cand(cat: string, sub: string, rel: real, top: real, marked: bool)

  /** MAX_SUBCAT_PER_FEED and MAX_CAT_PER_FEED as read from the environment. */
  datatype Caps = Caps(maxSubcat: int, maxCat: int)

  const DefaultCaps := Caps(3, 8)

  /** The caps in force: unlimited (1_000_000) at explore level <= 0. */
  function CapsFor(exploreLevel: real, configured: Caps): Caps
  {
    if exploreLevel <= 0.0 then Caps(1_000_000, 1_000_000) else configured
  }

  /** top_nodes.get((category, subcategory), 0.0) */
  function Bonus(topNodes: map<NodeKey, real>, key: NodeKey): real
  {
    if key in topNodes then topNodes[key] else 0.0
  }

  function CandOf(item: Item, rel: real, topNodes: map<NodeKey, real>): Cand
  {
    var cat := OrEmpty(item.category);
    var sub := OrEmpty(item.subcategory);
    Cand(cat, sub, rel, Bonus(topNodes, (cat, sub)), item.selected)
  }

  /** The selection view of every candidate. */
  function Cands(items: seq<Item>, rel: seq<real>, topNodes: map<NodeKey, real>): (cs: seq<Cand>)
    requires |rel| == |items|
    ensures |cs| == |items| && forall i :: 0 <= i < |items| ==> cs[i] == CandOf(items[i], rel[i], topNodes)
  {
    seq(|items|, i requires 0 <= i < |items| => CandOf(items[i], rel[i], topNodes))
  }

  /** `cat_counts[c]` after the picks. */
  function CatCount(cs: seq<Cand>, picks: seq<nat>, c: string): nat
    requires Sorting.IndicesIn(picks, |cs|)
  {
    if picks == [] then 0
    else
      var pre := picks[..|picks| - 1];
      assert Sorting.IndicesIn(pre, |cs|) by { assert forall i :: 0 <= i < |pre| ==> pre[i] == picks[i]; }
      CatCount(cs, pre, c) + (if cs[picks[|picks| - 1]].cat == c then 1 else 0)
  }

  /** `subcat_counts[s]` after the picks. */
  function SubCount(cs: seq<Cand>, picks: seq<nat>, s: string): nat
    requires Sorting.IndicesIn(picks, |cs|)
  {
    if picks == [] then 0
    else
      var pre := picks[..|picks| - 1];
      assert Sorting.IndicesIn(pre, |cs|) by { assert forall i :: 0 <= i < |pre| ==> pre[i] == picks[i]; }
      SubCount(cs, pre, s) + (if cs[picks[|picks| - 1]].sub == s then 1 else 0)
  }

  /** `selected_categories` after the picks: their non-empty categories. */
  function SelCats(cs: seq<Cand>, picks: seq<nat>): set<string>
    requires Sorting.IndicesIn(picks, |cs|)
  {
    if picks == [] then {}
    else
      var pre := picks[..|picks| - 1];
      assert Sorting.IndicesIn(pre, |cs|) by { assert forall i :: 0 <= i < |pre| ==> pre[i] == picks[i]; }
      var c := cs[picks[|picks| - 1]].cat;
      SelCats(cs, pre) + (if c != "" then {c} else {})
  }

  /** `selected_subcategories` after the picks: their non-empty subcategories. */
  function SelSubs(cs: seq<Cand>, picks: seq<nat>): set<string>
    requires Sorting.IndicesIn(picks, |cs|)
  {
    if picks == [] then {}
    else
      var pre := picks[..|picks| - 1];
      assert Sorting.IndicesIn(pre, |cs|) by { assert forall i :: 0 <= i < |pre| ==> pre[i] == picks[i]; }
      var s := cs[picks[|picks| - 1]].sub;
      SelSubs(cs, pre) + (if s != "" then {s} else {})
  }

  /** Candidate `i` may be chosen next: not marked, not chosen yet, and
      neither its category nor its subcategory has reached its cap. */
  predicate Eligible(cs: seq<Cand>, caps: Caps, picks: seq<nat>, i: nat)
    requires Sorting.IndicesIn(picks, |cs|)
  {
    i < |cs| && !cs[i].marked && i !in picks
    && !(cs[i].cat != "" && CatCount(cs, picks, cs[i].cat) >= caps.maxCat)
    && !(cs[i].sub != "" && SubCount(cs, picks, cs[i].sub) >= caps.maxSubcat)
  }

  function Redundancy(cs: seq<Cand>, picks: seq<nat>, i: nat): real
    requires Sorting.IndicesIn(picks, |cs|) && i < |cs|
  {
    if cs[i].sub != "" && cs[i].sub in SelSubs(cs, picks) then 1.0
    else if cs[i].cat != "" && cs[i].cat in SelCats(cs, picks) then 0.5
    else 0.0
  }

  function Coverage(cs: seq<Cand>, picks: seq<nat>, i: nat): real
    requires Sorting.IndicesIn(picks, |cs|) && i < |cs|
  {
    if cs[i].sub != "" && cs[i].sub !in SelSubs(cs, picks) then 1.0
    else if cs[i].cat != "" && cs[i].cat !in SelCats(cs, picks) then 0.5
    else 0.0
  }

  /** A non-empty subcategory draws the full penalty exactly when it was
      already selected and the full gain exactly when it was not; without a
      subcategory, a non-empty category draws exactly one half-weight term. */
  lemma RedundancyCoverageSplit(cs: seq<Cand>, picks: seq<nat>, i: nat)
    requires Sorting.IndicesIn(picks, |cs|) && i < |cs|
    ensures var red, cov := Redundancy(cs, picks, i), Coverage(cs, picks, i);
      (cs[i].sub != "" ==> (red == 1.0 <==> cov != 1.0))
      && (cs[i].sub == "" && cs[i].cat != "" ==> red + cov == 0.5)
      && (cs[i].sub == "" && cs[i].cat == "" ==> red == 0.0 && cov == 0.0)
  {
  }

  /** `total_score`: the weighted relevance and interest-node bonus, minus the
      weighted redundancy penalty, plus the weighted coverage gain. */
  function Score(w: Weights, rel: real, top: real, redundancy: real, coverage: real): real
  {
    w.rel * rel + w.top * top - w.rep * redundancy + w.cov * coverage
  }

  function Total(cs: seq<Cand>, w: Weights, picks: seq<nat>, i: nat): real
    requires Sorting.IndicesIn(picks, |cs|) && i < |cs|
  {
    Score(w, cs[i].rel, cs[i].top, Redundancy(cs, picks, i), Coverage(cs, picks, i))
  }

  function BreakdownAt(cs: seq<Cand>, w: Weights, picks: seq<nat>, i: nat): Breakdown
    requires Sorting.IndicesIn(picks, |cs|) && i < |cs|
  {
    Breakdown(cs[i].rel, cs[i].top, Redundancy(cs, picks, i), Coverage(cs, picks, i), Total(cs, w, picks, i))
  }

  /** `b` is what the scan picks after `picks`: eligible, of maximal total,
      and strictly better than every eligible candidate before it. */
  predicate IsBest(cs: seq<Cand>, w: Weights, caps: Caps, picks: seq<nat>, b: nat)
    requires Sorting.IndicesIn(picks, |cs|)
  {
    Eligible(cs, caps, picks, b)
    && (forall j :: 0 <= j < |cs| && Eligible(cs, caps, picks, j) ==> Total(cs, w, picks, j) <= Total(cs, w, picks, b))
    && (forall j :: 0 <= j < b && Eligible(cs, caps, picks, j) ==> Total(cs, w, picks, j) < Total(cs, w, picks, b))
  }

  predicate NoneEligible(cs: seq<Cand>, caps: Caps, picks: seq<nat>)
    requires Sorting.IndicesIn(picks, |cs|)
  {
    forall j :: 0 <= j < |cs| ==> !Eligible(cs, caps, picks, j)
  }

  /** Every pick was the best choice given the picks before it. */
  ghost predicate GreedyRun(cs: seq<Cand>, w: Weights, caps: Caps, picks: seq<nat>)
  {
    Sorting.IndicesIn(picks, |cs|)
    && forall t :: 0 <= t < |picks| ==>
      Sorting.IndicesIn(picks[..t], |cs|) && IsBest(cs, w, caps, picks[..t], picks[t])
  }

  /** `len(range(min(k, len(candidates))))` */
  function Steps(k: int, n: nat): nat
  {
    if k <= 0 then 0 else if k < n then k else n
  }

  lemma GreedyRunPrefix(cs: seq<Cand>, w: Weights, caps: Caps, picks: seq<nat>)
    requires GreedyRun(cs, w, caps, picks) && picks != []
    ensures GreedyRun(cs, w, caps, picks[..|picks| - 1])
  {
    var pre := picks[..|picks| - 1];
    forall t | 0 <= t < |pre| ensures pre[..t] == picks[..t] && pre[t] == picks[t] { }
  }

  lemma GreedyRunExtend(cs: seq<Cand>, w: Weights, caps: Caps, picks: seq<nat>, b: nat)
    requires GreedyRun(cs, w, caps, picks) && IsBest(cs, w, caps, picks, b)
    ensures GreedyRun(cs, w, caps, picks + [b])
  {
    var next := picks + [b];
    assert next[..|picks|] == picks;
    forall t | 0 <= t < |picks| ensures next[..t] == picks[..t] && next[t] == picks[t] {
      assert next[..t] == next[..|picks|][..t];
    }
  }

  /** A greedy run picks distinct, previously unmarked candidates and keeps
      every non-empty category within the category cap and every non-empty
      subcategory within the subcategory cap. */
  lemma {:induction false} GreedyRunRespectsCaps(cs: seq<Cand>, w: Weights, caps: Caps, picks: seq<nat>)
    requires GreedyRun(cs, w, caps, picks)
    ensures Sorting.Distinct(picks)
    ensures forall t :: 0 <= t < |picks| ==> !cs[picks[t]].marked
    ensures forall c :: c != "" ==> CatCount(cs, picks, c) <= MaxInt(caps.maxCat, 0)
    ensures forall s :: s != "" ==> SubCount(cs, picks, s) <= MaxInt(caps.maxSubcat, 0)
  {
    if picks != [] {
      var pre := picks[..|picks| - 1];
      var b := picks[|picks| - 1];
      GreedyRunPrefix(cs, w, caps, picks);
      GreedyRunRespectsCaps(cs, w, caps, pre);
      assert picks == pre + [b];
      assert IsBest(cs, w, caps, pre, b);
      forall c | c != "" ensures CatCount(cs, picks, c) <= MaxInt(caps.maxCat, 0) {
        if cs[b].cat == c {
          assert CatCount(cs, pre, c) < caps.maxCat;
        }
      }
      forall s | s != "" ensures SubCount(cs, picks, s) <= MaxInt(caps.maxSubcat, 0) {
        if cs[b].sub == s {
          assert SubCount(cs, pre, s) < caps.maxSubcat;
        }
      }
    }
  }

  /** The best next pick is unique. */
  lemma BestUnique(cs: seq<Cand>, w: Weights, caps: Caps, picks: seq<nat>, b1: nat, b2: nat)
    requires Sorting.IndicesIn(picks, |cs|)
    requires IsBest(cs, w, caps, picks, b1) && IsBest(cs, w, caps, picks, b2)
    ensures b1 == b2
  {
  }

  /** Two greedy runs of the same length are the same run. */
  lemma {:induction false} GreedyRunDeterministic(cs: seq<Cand>, w: Weights, caps: Caps, p1: seq<nat>, p2: seq<nat>)
    requires GreedyRun(cs, w, caps, p1) && GreedyRun(cs, w, caps, p2) && |p1| == |p2|
    ensures p1 == p2
  {
    if p1 != [] {
      var n := |p1| - 1;
      GreedyRunPrefix(cs, w, caps, p1);
      GreedyRunPrefix(cs, w, caps, p2);
      GreedyRunDeterministic(cs, w, caps, p1[..n], p2[..n]);
      assert p1[..n] == p2[..n];
      BestUnique(cs, w, caps, p1[..n], p1[n], p2[n]);
      assert p1 == p1[..n] + [p1[n]] && p2 == p2[..n] + [p2[n]];
    }
  }

  /** `cat_counts` and `subcat_counts` read with the defaultdict's 0. */
  function CountOf(m: map<string, nat>, c: string): nat
  {
    if c in m then m[c] else 0
  }

  /** The loop state of `diversify_greedy` agrees with the picks so far:
      `_selected` marks, the two sets, and the two counters. */
  ghost predicate Tracks(cs: seq<Cand>, picks: seq<nat>, marks: seq<bool>,
                   selCats: set<string>, selSubs: set<string>,
                   catCounts: map<string, nat>, subcatCounts: map<string, nat>)
  {
    Sorting.IndicesIn(picks, |cs|)
    && selCats == SelCats(cs, picks) && selSubs == SelSubs(cs, picks)
    && (forall c :: c != "" ==> CountOf(catCounts, c) == CatCount(cs, picks, c))
    && (forall s :: s != "" ==> CountOf(subcatCounts, s) == SubCount(cs, picks, s))
    && |marks| == |cs| && (forall i :: 0 <= i < |cs| ==> marks[i] == (cs[i].marked || i in picks))
  }

  /** Recording pick `b` the way the source does keeps the state in step. */
  lemma TracksStep(cs: seq<Cand>, picks: seq<nat>, marks: seq<bool>,
                   selCats: set<string>, selSubs: set<string>,
                   catCounts: map<string, nat>, subcatCounts: map<string, nat>, b: nat)
    requires Tracks(cs, picks, marks, selCats, selSubs, catCounts, subcatCounts) && b < |cs|
    ensures var c, s := cs[b].cat, cs[b].sub;
      Tracks(cs, picks + [b], marks[b := true],
             if c != "" then selCats + {c} else selCats,
             if s != "" then selSubs + {s} else selSubs,
             if c != "" then catCounts[c := CountOf(catCounts, c) + 1] else catCounts,
             if s != "" then subcatCounts[s := CountOf(subcatCounts, s) + 1] else subcatCounts)
  {
    var next := picks + [b];
    assert next[..|next| - 1] == picks;
    var c, s := cs[b].cat, cs[b].sub;
    assert SelCats(cs, next) == if c != "" then selCats + {c} else selCats;
    assert SelSubs(cs, next) == if s != "" then selSubs + {s} else selSubs;
    var cc := if c != "" then catCounts[c := CountOf(catCounts, c) + 1] else catCounts;
    forall x | x != "" ensures CountOf(cc, x) == CatCount(cs, next, x) {
      assert CatCount(cs, next, x) == CatCount(cs, picks, x) + (if c == x then 1 else 0);
    }
    var sc := if s != "" then subcatCounts[s := CountOf(subcatCounts, s) + 1] else subcatCounts;
    forall x | x != "" ensures CountOf(sc, x) == SubCount(cs, next, x) {
      assert SubCount(cs, next, x) == SubCount(cs, picks, x) + (if s == x then 1 else 0);
    }
    var mk := marks[b := true];
    forall i | 0 <= i < |cs| ensures mk[i] == (cs[i].marked || i in next) {
      assert (i in next) == (i in picks || i == b);
    }
  }

  /** One iteration of the inner scan: whether candidate `idx` is eligible
      (the three `continue` tests) and, if so, its redundancy, coverage and
      total as the source computes them. */
  method ScoreCandidate(cs: seq<Cand>, w: Weights, caps: Caps, picks: seq<nat>, marks: seq<bool>,
                        selCats: set<string>, selSubs: set<string>,
                        catCounts: map<string, nat>, subcatCounts: map<string, nat>, idx: nat)
    returns (eligible: bool, breakdown: Breakdown)
    requires Tracks(cs, picks, marks, selCats, selSubs, catCounts, subcatCounts) && idx < |cs|
    ensures eligible == Eligible(cs, caps, picks, idx)
    ensures eligible ==> breakdown == BreakdownAt(cs, w, picks, idx)
  {
    var cand := cs[idx];
    eligible := !marks[idx]
      && !(cand.cat != "" && CountOf(catCounts, cand.cat) >= caps.maxCat)
      && !(cand.sub != "" && CountOf(subcatCounts, cand.sub) >= caps.maxSubcat);
    breakdown := Breakdown(0.0, 0.0, 0.0, 0.0, 0.0);
    if eligible {
      var redundancy := 0.0;
      if cand.sub != "" && cand.sub in selSubs {
        redundancy := 1.0;
      } else if cand.cat != "" && cand.cat in selCats {
        redundancy := 0.5;
      }
      var coverage := 0.0;
      if cand.sub != "" && cand.sub !in selSubs {
        coverage := 1.0;
      } else if cand.cat != "" && cand.cat !in selCats {
        coverage := 0.5;
      }
      assert redundancy == Redundancy(cs, picks, idx) && coverage == Coverage(cs, picks, idx);
      var total := Score(w, cand.rel, cand.top, redundancy, coverage);
      breakdown := Breakdown(cand.rel, cand.top, redundancy, coverage, total);
    }
  }

  /** The inner `for idx, cand in enumerate(candidates)` scan: the eligible
      candidate of maximal total, the earliest one on ties. */
  method ScanBest(cs: seq<Cand>, w: Weights, caps: Caps, picks: seq<nat>, marks: seq<bool>,
                  selCats: set<string>, selSubs: set<string>,
                  catCounts: map<string, nat>, subcatCounts: map<string, nat>)
    returns (best: Option<nat>, bestBreakdown: Breakdown)
    requires Tracks(cs, picks, marks, selCats, selSubs, catCounts, subcatCounts)
    ensures best.None? ==> NoneEligible(cs, caps, picks)
    ensures best.Some? ==>
      IsBest(cs, w, caps, picks, best.value) && bestBreakdown == BreakdownAt(cs, w, picks, best.value)
  {
    best := None;
    var bestScore := 0.0;
    bestBreakdown := Breakdown(0.0, 0.0, 0.0, 0.0, 0.0);
    var idx := 0;
    while idx < |cs|
      invariant idx <= |cs|
      invariant best.None? ==> forall j :: 0 <= j < idx ==> !Eligible(cs, caps, picks, j)
      invariant best.Some? ==>
        best.value < idx && Eligible(cs, caps, picks, best.value)
        && bestScore == Total(cs, w, picks, best.value)
        && bestBreakdown == BreakdownAt(cs, w, picks, best.value)
        && (forall j :: 0 <= j < idx && Eligible(cs, caps, picks, j) ==> Total(cs, w, picks, j) <= bestScore)
        && (forall j :: 0 <= j < best.value && Eligible(cs, caps, picks, j) ==> Total(cs, w, picks, j) < bestScore)
    {
      var eligible, breakdown := ScoreCandidate(cs, w, caps, picks, marks, selCats, selSubs,
                                                catCounts, subcatCounts, idx);
      if eligible && (best.None? || breakdown.totalScore > bestScore) {
        best := Some(idx);
        bestScore := breakdown.totalScore;
        bestBreakdown := breakdown;
      }
      idx := idx + 1;
    }
  }

  /** Each recorded breakdown is the one of its pick after the picks before it. */
  ghost predicate BreakdownsMatch(cs: seq<Cand>, w: Weights, picks: seq<nat>, breakdowns: seq<Breakdown>)
  {
    |breakdowns| == |picks|
    && forall t :: 0 <= t < |picks| ==>
      Sorting.IndicesIn(picks[..t], |cs|) && picks[t] < |cs| && breakdowns[t] == BreakdownAt(cs, w, picks[..t], picks[t])
  }

  lemma BreakdownsExtend(cs: seq<Cand>, w: Weights, caps: Caps, picks: seq<nat>, breakdowns: seq<Breakdown>, b: nat)
    requires GreedyRun(cs, w, caps, picks) && BreakdownsMatch(cs, w, picks, breakdowns)
    requires IsBest(cs, w, caps, picks, b)
    ensures BreakdownsMatch(cs, w, picks + [b], breakdowns + [BreakdownAt(cs, w, picks, b)])
  {
    var next := picks + [b];
    assert next[..|picks|] == picks;
    forall t | 0 <= t < |picks| ensures next[..t] == picks[..t] && next[t] == picks[t] {
      assert next[..t] == next[..|picks|][..t];
    }
  }

  /** The bookkeeping after a pick: `_selected`, the two sets and the two
      counters. */
  method RecordPick(cs: seq<Cand>, picks: seq<nat>, marks: seq<bool>,
                    selCats: set<string>, selSubs: set<string>,
                    catCounts: map<string, nat>, subcatCounts: map<string, nat>, b: nat)
    returns (marks': seq<bool>, selCats': set<string>, selSubs': set<string>,
             catCounts': map<string, nat>, subcatCounts': map<string, nat>)
    requires Tracks(cs, picks, marks, selCats, selSubs, catCounts, subcatCounts) && b < |cs|
    ensures Tracks(cs, picks + [b], marks', selCats', selSubs', catCounts', subcatCounts')
  {
    TracksStep(cs, picks, marks, selCats, selSubs, catCounts, subcatCounts, b);
    marks', selCats', selSubs', catCounts', subcatCounts' := marks[b := true], selCats, selSubs, catCounts, subcatCounts;
    var cand := cs[b];
    if cand.cat != "" {
      selCats' := selCats' + {cand.cat};
      catCounts' := catCounts'[cand.cat := CountOf(catCounts', cand.cat) + 1];
    }
    if cand.sub != "" {
      selSubs' := selSubs' + {cand.sub};
      subcatCounts' := subcatCounts'[cand.sub := CountOf(subcatCounts', cand.sub) + 1];
    }
  }

  /** The selection loop of `diversify_greedy`: `range(min(k, n))` steps of
      the scan, stopping early when nothing is eligible, with the set and
      counter bookkeeping after each pick. Returns the chosen indices and the
      breakdown recorded for each. */
  method SelectGreedy(cs: seq<Cand>, w: Weights, caps: Caps, k: int)
    returns (picks: seq<nat>, breakdowns: seq<Breakdown>,
             selectedCategories: set<string>, selectedSubcategories: set<string>)
    ensures GreedyRun(cs, w, caps, picks)
    ensures |picks| <= Steps(k, |cs|)
    ensures |picks| < Steps(k, |cs|) ==> NoneEligible(cs, caps, picks)
    ensures BreakdownsMatch(cs, w, picks, breakdowns)
    ensures selectedCategories == SelCats(cs, picks) && selectedSubcategories == SelSubs(cs, picks)
  {
    picks, breakdowns := [], [];
    selectedCategories, selectedSubcategories := {}, {};
    var catCounts: map<string, nat> := map[];
    var subcatCounts: map<string, nat> := map[];
    var marks := seq(|cs|, i requires 0 <= i < |cs| => cs[i].marked);
    assert Tracks(cs, picks, marks, selectedCategories, selectedSubcategories, catCounts, subcatCounts);
    var steps := Steps(k, |cs|);
    var step := 0;
    while step < steps
      invariant step <= steps && |picks| == step
      invariant GreedyRun(cs, w, caps, picks)
      invariant BreakdownsMatch(cs, w, picks, breakdowns)
      invariant Tracks(cs, picks, marks, selectedCategories, selectedSubcategories, catCounts, subcatCounts)
    {
      var best, bestBreakdown := ScanBest(cs, w, caps, picks, marks, selectedCategories,
                                          selectedSubcategories, catCounts, subcatCounts);
      if best.None? {
        break;
      }
      var b := best.value;
      assert IsBest(cs, w, caps, picks, b);
      GreedyRunExtend(cs, w, caps, picks, b);
      BreakdownsExtend(cs, w, caps, picks, breakdowns, b);
      marks, selectedCategories, selectedSubcategories, catCounts, subcatCounts :=
        RecordPick(cs, picks, marks, selectedCategories, selectedSubcategories, catCounts, subcatCounts, b);
      picks := picks + [b];
      breakdowns := breakdowns + [bestBreakdown];
      step := step + 1;
    }
  }

  // ---------------------------------------------------------------------
  // diversify_greedy: the entry point and its metrics
  // ---------------------------------------------------------------------

  /** The `metrics` dict: unique_categories, unique_subcategories, ild_proxy. */
  datatype Metrics = Metrics(uniqueCategories: nat, uniqueSubcategories: nat, ildProxy: real)

  /** `dict(candidates[best_idx])` updated with the breakdown and `top_path`. */
  function Decorated(c: Item, bd: Breakdown): Item
  {
    c.(breakdown := Some(bd), topPath := PathOf(c.category, c.subcategory))
  }

  /** The similarities of `v` with every vector of `rest`, in order. */
  function RowSims(v: seq<real>, rest: seq<seq<real>>, sim: (seq<real>, seq<real>) -> real): (r: seq<real>)
    ensures |r| == |rest|
  {
    if rest == [] then [] else [sim(v, rest[0])] + RowSims(v, rest[1..], sim)
  }

  /** `sim[np.triu_indices(n, k=1)]`: the similarity of every pair `i < j`,
      row by row. */
  function UpperSims(vs: seq<seq<real>>, sim: (seq<real>, seq<real>) -> real): seq<real>
  {
    if vs == [] then [] else RowSims(vs[0], vs[1..], sim) + UpperSims(vs[1..], sim)
  }

  /** There are n(n-1)/2 pairs. */
  lemma {:induction false} UpperSimsCount(vs: seq<seq<real>>, sim: (seq<real>, seq<real>) -> real)
    ensures 2 * |UpperSims(vs, sim)| == |vs| * (|vs| - 1)
  {
    if vs != [] {
      UpperSimsCount(vs[1..], sim);
    }
  }

  /** `1 - mean(upper)`, or 0 when there is no pair. `sim` stands for the
      cosine similarity of the rows after each is divided by its norm (a zero
      norm counting as 1). */
  function IldProxy(vs: seq<seq<real>>, sim: (seq<real>, seq<real>) -> real): real
  {
    var upper := UpperSims(vs, sim);
    if |vs| >= 2 && |upper| > 0 then 1.0 - Sum(upper) / (|upper| as real) else 0.0
  }

  /** With two or more vectors the upper triangle is never empty. */
  lemma IldProxyOfPairs(vs: seq<seq<real>>, sim: (seq<real>, seq<real>) -> real)
    requires |vs| >= 2
    ensures |UpperSims(vs, sim)| > 0
    ensures IldProxy(vs, sim) == 1.0 - Sum(UpperSims(vs, sim)) / (|UpperSims(vs, sim)| as real)
  {
    UpperSimsCount(vs, sim);
  }

  /** The embeddings found for the selected items, in selection order. */
  function Vectors(items: seq<Item>, embeddingOf: string -> Option<seq<real>>): (vs: seq<seq<real>>)
    ensures |vs| <= |items|
  {
    if items == [] then []
    else
      var e := embeddingOf(items[|items| - 1].newsId);
      Vectors(items[..|items| - 1], embeddingOf) + (if e.Some? then [e.value] else [])
  }

  /** Copies and decorates each chosen candidate, in the order chosen, and
      sets `_selected` on it in the input. */
  method MarkSelected(candidates: array<Item>, snapshot: seq<Item>, chosen: seq<nat>, breakdowns: seq<Breakdown>)
    returns (selected: seq<Item>)
    requires snapshot == candidates[..] && |breakdowns| == |chosen|
    requires forall t :: 0 <= t < |chosen| ==> chosen[t] < candidates.Length
    modifies candidates
    ensures |selected| == |chosen|
    ensures forall t :: 0 <= t < |chosen| ==> selected[t] == Decorated(snapshot[chosen[t]], breakdowns[t])
    ensures forall i :: 0 <= i < candidates.Length ==>
      candidates[i] == if i in chosen then snapshot[i].(selected := true) else snapshot[i]
  {
    selected := [];
    for t := 0 to |chosen|
      invariant |selected| == t
      invariant forall u :: 0 <= u < t ==> selected[u] == Decorated(snapshot[chosen[u]], breakdowns[u])
      invariant forall i :: 0 <= i < candidates.Length ==>
        candidates[i] == if i in chosen[..t] then snapshot[i].(selected := true) else snapshot[i]
    {
      var b := chosen[t];
      assert chosen[..t + 1] == chosen[..t] + [b];
      selected := selected + [Decorated(snapshot[b], breakdowns[t])];
      candidates[b] := candidates[b].(selected := true);
    }
    assert chosen[..|chosen|] == chosen;
  }

  /** The t-th selected item is the t-th pick, copied and decorated with the
      breakdown it had when it was picked. */
  ghost predicate SelectedMatch(cs: seq<Cand>, w: Weights, snapshot: seq<Item>, picks: seq<nat>, selected: seq<Item>)
  {
    |selected| == |picks|
    && forall t :: 0 <= t < |picks| ==>
      Sorting.IndicesIn(picks[..t], |cs|) && picks[t] < |cs| && picks[t] < |snapshot|
      && selected[t] == Decorated(snapshot[picks[t]], BreakdownAt(cs, w, picks[..t], picks[t]))
  }

  lemma SelectedFromBreakdowns(cs: seq<Cand>, w: Weights, snapshot: seq<Item>, picks: seq<nat>,
                               breakdowns: seq<Breakdown>, selected: seq<Item>)
    requires BreakdownsMatch(cs, w, picks, breakdowns) && |selected| == |picks|
    requires forall t :: 0 <= t < |picks| ==> picks[t] < |snapshot|
    requires forall t :: 0 <= t < |picks| ==> selected[t] == Decorated(snapshot[picks[t]], breakdowns[t])
    ensures SelectedMatch(cs, w, snapshot, picks, selected)
  {
  }

  /** The part of `diversify_greedy` before the output is built: the node
      map, the normalised relevance, the weights, the caps and the selection
      loop over the candidates. */
  method Choose(snapshot: seq<Item>, rerankerScores: seq<real>, topNodeRows: seq<TopNodeRow>,
                exploreLevel: real, k: int, bases: Bases, configured: Caps)
    returns (chosen: seq<nat>, breakdowns: seq<Breakdown>, cats: set<string>, subs: set<string>)
    requires |rerankerScores| == |snapshot|
    ensures var cs := Cands(snapshot, NormalizeScores(rerankerScores), TopNodeMap(topNodeRows));
            var w := ComputeWeights(exploreLevel, bases);
            var caps := CapsFor(exploreLevel, configured);
      GreedyRun(cs, w, caps, chosen)
      && |chosen| <= Steps(k, |snapshot|)
      && (|chosen| < Steps(k, |snapshot|) ==> NoneEligible(cs, caps, chosen))
      && BreakdownsMatch(cs, w, chosen, breakdowns)
      && cats == SelCats(cs, chosen) && subs == SelSubs(cs, chosen)
  {
    var topNodes := LoadUserTopNodes(topNodeRows);
    var relScores := NormalizeScores(rerankerScores);
    var w := ComputeWeights(exploreLevel, bases);
    var caps := CapsFor(exploreLevel, configured);
    var cs := Cands(snapshot, relScores, topNodes);
    chosen, breakdowns, cats, subs := SelectGreedy(cs, w, caps, k);
  }

  /** `diversify_greedy`. The node map comes from `topNodeRows` (the
      user_top_nodes rows), the embeddings from `embeddingOf` (the items
      table, a missing or unparseable embedding being `None`), and the base
      weights and caps from the environment. Every chosen candidate gets
      `_selected` set in place; nothing else of the input changes. */
  method DiversifyGreedy(candidates: array<Item>, rerankerScores: seq<real>, topNodeRows: seq<TopNodeRow>,
                         exploreLevel: real, k: int, bases: Bases, configured: Caps,
                         embeddingOf: string -> Option<seq<real>>, sim: (seq<real>, seq<real>) -> real)
    returns (selected: seq<Item>, metrics: Metrics, ghost picks: seq<nat>)
    requires |rerankerScores| == candidates.Length
    modifies candidates
    ensures candidates.Length == 0 ==> selected == [] && metrics == Metrics(0, 0, 0.0)
    ensures var cs := Cands(old(candidates[..]), NormalizeScores(rerankerScores), TopNodeMap(topNodeRows));
            var w := ComputeWeights(exploreLevel, bases);
            var caps := CapsFor(exploreLevel, configured);
      GreedyRun(cs, w, caps, picks)
      && |picks| <= Steps(k, candidates.Length)
      && (|picks| < Steps(k, candidates.Length) ==> NoneEligible(cs, caps, picks))
      && SelectedMatch(cs, w, old(candidates[..]), picks, selected)
      && metrics.uniqueCategories == |SelCats(cs, picks)|
      && metrics.uniqueSubcategories == |SelSubs(cs, picks)|
    ensures metrics.ildProxy == if |selected| > 1 then IldProxy(Vectors(selected, embeddingOf), sim) else 0.0
    ensures forall i :: 0 <= i < candidates.Length ==>
      candidates[i] == if i in picks then old(candidates[i]).(selected := true) else old(candidates[i])
  {
    var snapshot := candidates[..];
    if candidates.Length == 0 {
      return [], Metrics(0, 0, 0.0), [];
    }
    ghost var cs := Cands(snapshot, NormalizeScores(rerankerScores), TopNodeMap(topNodeRows));
    ghost var w := ComputeWeights(exploreLevel, bases);
    var chosen, breakdowns, cats, subs := Choose(snapshot, rerankerScores, topNodeRows, exploreLevel, k, bases, configured);
    picks := chosen;
    selected := MarkSelected(candidates, snapshot, chosen, breakdowns);
    SelectedFromBreakdowns(cs, w, snapshot, chosen, breakdowns, selected);
    var ild := 0.0;
    if |selected| > 1 {
      ild := IldProxy(Vectors(selected, embeddingOf), sim);
    }
    metrics := Metrics(|cats|, |subs|, ild);
  }
}
