// The offline ranking metrics of ml/scripts/eval_diversification.py: nDCG@k
// (its zero case), MRR@k, the popularity percentile behind the novelty
// score, the intra-list diversity of a ranked list's embeddings and the
// category coverage. `log2`, the vector norm and the dot product are given to
// the model as functions.
module EvalDiversification {
  import opened Wrappers
  import opened Lists
  import opened FeedTypes
  import Sorting

  // ---------------------------------------------------------------------
  // ndcg_at_k
  // ---------------------------------------------------------------------

  function Pow2(n: nat): (p: nat)
    ensures p >= 1 && (n > 0 ==> p >= 2)
  {
    if n == 0 then 1 else 2 * Pow2(n - 1)
  }

  /** `2 ** rel - 1`: positive exactly for a relevant item. */
  function Gain(rel: nat): (g: real)
    ensures g >= 0.0 && (g > 0.0 <==> rel > 0)
  {
    (Pow2(rel) - 1) as real
  }

  /** `log2` is positive from 2 on, so every discount is positive. */
  ghost predicate IsLog2(log2: real -> real)
  {
    forall x :: x >= 2.0 ==> log2(x) > 0.0
  }

  /** `sum(gains / log2(arange(2, 2 + len(rel))))`: position `i` (from 0)
      is discounted by `log2(i + 2)`. */
  function Dcg(rel: seq<nat>, log2: real -> real): real
    requires IsLog2(log2)
  {
    if rel == [] then 0.0
    else Dcg(rel[..|rel| - 1], log2) + Gain(rel[|rel| - 1]) / log2((|rel| + 1) as real)
  }

  function NatKey(n: nat): real { n as real }

  /** `sorted(relevance, reverse=True)[:k]` */
  function Ideal(relevance: seq<nat>, k: int): seq<nat>
  {
    Prefix(Sorting.SortByKeyDesc(relevance, NatKey), k)
  }

  /** `ndcg_at_k`: the DCG of the first `k` entries over the DCG of the best
      ordering, or 0.0 when the ideal DCG is 0. */
  function NdcgAtK(relevance: seq<nat>, k: int, log2: real -> real): real
    requires IsLog2(log2)
  {
    var idcg := Dcg(Ideal(relevance, k), log2);
    if idcg > 0.0 then Dcg(Prefix(relevance, k), log2) / idcg else 0.0
  }

  /** A DCG is positive exactly when some entry is relevant. */
  lemma {:induction false} DcgPositive(rel: seq<nat>, log2: real -> real)
    requires IsLog2(log2)
    ensures Dcg(rel, log2) >= 0.0
    ensures Dcg(rel, log2) > 0.0 <==> exists i :: 0 <= i < |rel| && rel[i] > 0
  {
    if rel != [] {
      var n := |rel| - 1;
      DcgPositive(rel[..n], log2);
      var d := log2((|rel| + 1) as real);
      assert d > 0.0;
      var g := Gain(rel[n]);
      assert g / d >= 0.0 && (g / d > 0.0 <==> g > 0.0) by {
        assert g / d * d == g;
      }
      assert forall i :: 0 <= i < n ==> rel[..n][i] == rel[i];
    }
  }

  /** `a / b` lies in [0, c] when `a` lies in [0, c * b]. */
  lemma RatioBounds(a: real, b: real, c: real)
    requires b > 0.0 && 0.0 <= a <= c * b
    ensures 0.0 <= a / b <= c
  {
    var q := a / b;
    assert q * b == a;
    assert (q - c) * b == a - c * b;
  }

  /** The first `k > 0` entries of the ideal ordering hold a relevant item
      exactly when some item is relevant. */
  lemma IdealHasRelevant(relevance: seq<nat>, k: int)
    requires k > 0
    ensures (exists i :: 0 <= i < |Ideal(relevance, k)| && Ideal(relevance, k)[i] > 0)
        <==> (exists i :: 0 <= i < |relevance| && relevance[i] > 0)
  {
    var sorted := Sorting.SortByKeyDesc(relevance, NatKey);
    var ideal := Ideal(relevance, k);
    if exists i :: 0 <= i < |relevance| && relevance[i] > 0 {
      var i :| 0 <= i < |relevance| && relevance[i] > 0;
      assert relevance[i] in sorted;
      var j :| 0 <= j < |sorted| && sorted[j] == relevance[i];
      assert NatKey(sorted[0]) >= NatKey(sorted[j]);
      assert ideal[0] == sorted[0];
    }
    if exists i :: 0 <= i < |ideal| && ideal[i] > 0 {
      var i :| 0 <= i < |ideal| && ideal[i] > 0;
      assert ideal[i] == sorted[i] && sorted[i] in relevance;
    }
  }

  /** The ideal DCG is 0 exactly when no item is relevant or `k` keeps
      nothing. */
  lemma IdealDcgZero(relevance: seq<nat>, k: int, log2: real -> real)
    requires IsLog2(log2) && k >= 0
    ensures Dcg(Ideal(relevance, k), log2) == 0.0 <==> k == 0 || forall i :: 0 <= i < |relevance| ==> relevance[i] == 0
  {
    DcgPositive(Ideal(relevance, k), log2);
    if k > 0 {
      IdealHasRelevant(relevance, k);
    }
  }

  /** nDCG is never negative. */
  lemma NdcgNonNegative(relevance: seq<nat>, k: int, log2: real -> real)
    requires IsLog2(log2)
    ensures NdcgAtK(relevance, k, log2) >= 0.0
  {
    var idcg := Dcg(Ideal(relevance, k), log2);
    if idcg > 0.0 {
      DcgPositive(Prefix(relevance, k), log2);
      QuotientNonNegative(Dcg(Prefix(relevance, k), log2), idcg);
    }
  }

  lemma QuotientNonNegative(a: real, b: real)
    requires a >= 0.0 && b > 0.0
    ensures a / b >= 0.0
  {
    assert a / b * b == a;
  }

  /** nDCG is 0 when no item is relevant. */
  lemma NdcgZeroCase(relevance: seq<nat>, k: int, log2: real -> real)
    requires IsLog2(log2)
    requires forall i :: 0 <= i < |relevance| ==> relevance[i] == 0
    ensures NdcgAtK(relevance, k, log2) == 0.0
  {
    var sorted := Sorting.SortByKeyDesc(relevance, NatKey);
    var ideal := Ideal(relevance, k);
    forall i | 0 <= i < |ideal|
      ensures ideal[i] == 0
    {
      assert ideal[i] == sorted[i];
      assert sorted[i] in relevance;
    }
    DcgPositive(ideal, log2);
  }

  // ---------------------------------------------------------------------
  // mrr_at_k
  // ---------------------------------------------------------------------

  /** The position (from 0) of the first relevant entry. */
  function FirstRelevant(rel: seq<nat>): (r: Option<nat>)
    ensures r.None? <==> forall i :: 0 <= i < |rel| ==> rel[i] == 0
    ensures r.Some? ==> r.value < |rel| && rel[r.value] > 0 && forall i :: 0 <= i < r.value ==> rel[i] == 0
  {
    if rel == [] then None
    else if rel[0] > 0 then Some(0)
    else match FirstRelevant(rel[1..])
      case None => None
      case Some(j) => Some(j + 1)
  }

  /** MRR@k: `1/i` for the first relevant entry at 1-based position `i <= k`,
      else 0; so 0 or in (0, 1]. */
  function Mrr(relevance: seq<nat>, k: int): (r: real)
    ensures r == 0.0 <==> FirstRelevant(Prefix(relevance, k)).None?
    ensures r == 0.0 || 0.0 < r <= 1.0
    ensures FirstRelevant(Prefix(relevance, k)).Some? ==>
      r * (FirstRelevant(Prefix(relevance, k)).value + 1) as real == 1.0
  {
    match FirstRelevant(Prefix(relevance, k))
    case None => 0.0
    case Some(i) => 1.0 / (i + 1) as real
  }

  /** `mrr_at_k`: the scan that returns at the first relevant entry. */
  method MrrAtK(relevance: seq<nat>, k: int) returns (r: real)
    ensures r == Mrr(relevance, k)
  {
    var rel := Prefix(relevance, k);
    for idx := 0 to |rel|
      invariant forall j :: 0 <= j < idx ==> rel[j] == 0
    {
      if rel[idx] > 0 {
        return 1.0 / (idx + 1) as real;
      }
    }
    return 0.0;
  }

  // ---------------------------------------------------------------------
  // percentile
  // ---------------------------------------------------------------------

  predicate SortedAsc(s: seq<real>)
  {
    forall i, j :: 0 <= i < j < |s| ==> s[i] <= s[j]
  }

  /** `np.searchsorted(s, v, side="right")` on a sorted list: the first
      index whose entry exceeds `v`. */
  function SearchSortedRight(s: seq<real>, v: real): (i: nat)
    requires SortedAsc(s)
    ensures i <= |s|
    ensures forall j :: 0 <= j < i ==> s[j] <= v
    ensures forall j :: i <= j < |s| ==> s[j] > v
  {
    if s == [] then 0
    else if s[|s| - 1] <= v then |s|
    else SearchSortedRight(s[..|s| - 1], v)
  }

  /** How many entries are at most `v`. */
  function AtMost(s: seq<real>, v: real): (n: nat)
    ensures n <= |s|
  {
    if s == [] then 0 else AtMost(s[..|s| - 1], v) + if s[|s| - 1] <= v then 1 else 0
  }

  /** `percentile(sorted_vals, value)` */
  function Percentile(sorted: seq<real>, v: real): real
    requires SortedAsc(sorted)
  {
    if sorted == [] then 0.0 else SearchSortedRight(sorted, v) as real / |sorted| as real
  }

  /** On a sorted list the search index counts the entries at most `v`. */
  lemma {:induction false} SearchCountsAtMost(s: seq<real>, v: real)
    requires SortedAsc(s)
    ensures SearchSortedRight(s, v) == AtMost(s, v)
  {
    if s != [] {
      var n := |s| - 1;
      SearchCountsAtMost(s[..n], v);
      if s[n] <= v {
        assert forall j :: 0 <= j < n ==> s[..n][j] <= v;
        AllAtMost(s[..n], v);
      }
    }
  }

  lemma {:induction false} AllAtMost(s: seq<real>, v: real)
    requires forall j :: 0 <= j < |s| ==> s[j] <= v
    ensures AtMost(s, v) == |s|
  {
    if s != [] {
      AllAtMost(s[..|s| - 1], v);
    }
  }

  /** The percentile is the share of entries at most `v`, and lies in
      [0, 1]. */
  lemma PercentileShare(sorted: seq<real>, v: real)
    requires SortedAsc(sorted)
    ensures sorted != [] ==> Percentile(sorted, v) * |sorted| as real == AtMost(sorted, v) as real
    ensures 0.0 <= Percentile(sorted, v) <= 1.0
  {
    if sorted != [] {
      SearchCountsAtMost(sorted, v);
      var i, n := SearchSortedRight(sorted, v) as real, |sorted| as real;
      assert i / n * n == i;
      RatioBounds(i, n, 1.0);
    }
  }

  /** The percentile does not decrease as the value grows. */
  lemma PercentileMonotone(sorted: seq<real>, v1: real, v2: real)
    requires SortedAsc(sorted) && v1 <= v2
    ensures Percentile(sorted, v1) <= Percentile(sorted, v2)
  {
    if sorted != [] {
      var i1, i2 := SearchSortedRight(sorted, v1), SearchSortedRight(sorted, v2);
      SearchMonotone(sorted, v1, v2);
      DivideMonotone(i1 as real, i2 as real, |sorted| as real);
    }
  }

  lemma {:induction false} SearchMonotone(s: seq<real>, v1: real, v2: real)
    requires SortedAsc(s) && v1 <= v2
    ensures SearchSortedRight(s, v1) <= SearchSortedRight(s, v2)
  {
    if s != [] && s[|s| - 1] > v2 {
      SearchMonotone(s[..|s| - 1], v1, v2);
    }
  }

  lemma DivideMonotone(a: real, b: real, d: real)
    requires d > 0.0 && a <= b
    ensures a / d <= b / d
  {
    assert a / d * d == a;
    assert b / d * d == b;
  }

  // ---------------------------------------------------------------------
  // ild
  // ---------------------------------------------------------------------

  type Vector = seq<real>

  /** Cosine similarity lies in [-1, 1] wherever it is defined. */
  ghost predicate CosineBounded(norm: Vector -> real, dot: (Vector, Vector) -> real)
  {
    forall a, b :: norm(a) * norm(b) != 0.0 ==> -1.0 <= dot(a, b) / (norm(a) * norm(b)) <= 1.0
  }

  /** Whether pair `(i, j)` counts: neither vector has norm 0. */
  predicate Counted(e: seq<Vector>, norm: Vector -> real, i: nat, j: nat)
    requires i < |e| && j < |e|
  {
    norm(e[i]) * norm(e[j]) != 0.0
  }

  /** `1.0 - sim` of a counted pair. */
  function Dissimilarity(e: seq<Vector>, norm: Vector -> real, dot: (Vector, Vector) -> real, i: nat, j: nat): real
    requires i < |e| && j < |e| && Counted(e, norm, i, j)
  {
    1.0 - dot(e[i], e[j]) / (norm(e[i]) * norm(e[j]))
  }

  /** The dissimilarities of the counted pairs `(i, j')`, `i < j' < j`. */
  function RowTotal(e: seq<Vector>, norm: Vector -> real, dot: (Vector, Vector) -> real, i: nat, j: nat): real
    requires i < |e| && j <= |e|
  {
    if j <= i + 1 then 0.0
    else
      var d := if Counted(e, norm, i, j - 1) then Dissimilarity(e, norm, dot, i, j - 1) else 0.0;
      RowTotal(e, norm, dot, i, j - 1) + d
  }

  /** How many of the pairs `(i, j')`, `i < j' < j`, count. */
  function RowPairs(e: seq<Vector>, norm: Vector -> real, i: nat, j: nat): nat
    requires i < |e| && j <= |e|
  {
    if j <= i + 1 then 0
    else RowPairs(e, norm, i, j - 1) + if Counted(e, norm, i, j - 1) then 1 else 0
  }

  /** The dissimilarities of the counted pairs whose first index is below `i`. */
  function PairTotal(e: seq<Vector>, norm: Vector -> real, dot: (Vector, Vector) -> real, i: nat): real
    requires i <= |e|
  {
    if i == 0 then 0.0 else PairTotal(e, norm, dot, i - 1) + RowTotal(e, norm, dot, i - 1, |e|)
  }

  /** How many counted pairs have their first index below `i`. */
  function PairCount(e: seq<Vector>, norm: Vector -> real, i: nat): nat
    requires i <= |e|
  {
    if i == 0 then 0 else PairCount(e, norm, i - 1) + RowPairs(e, norm, i - 1, |e|)
  }

  /** `ild(embeddings)`: 0 for fewer than two embeddings or when no pair
      counts, else the mean dissimilarity over the counted pairs. */
  function Ild(e: seq<Vector>, norm: Vector -> real, dot: (Vector, Vector) -> real): real
  {
    if |e| < 2 then 0.0
    else
      var pairs := PairCount(e, norm, |e|);
      if pairs > 0 then PairTotal(e, norm, dot, |e|) / pairs as real else 0.0
  }

  /** `ild`: the nested loops over the unordered pairs. */
  method IldLoops(e: seq<Vector>, norm: Vector -> real, dot: (Vector, Vector) -> real) returns (r: real)
    ensures r == Ild(e, norm, dot)
  {
    if |e| < 2 {
      return 0.0;
    }
    var pairs := 0;
    var total := 0.0;
    var n := |e|;
    for i := 0 to n
      invariant total == PairTotal(e, norm, dot, i) && pairs == PairCount(e, norm, i)
    {
      for j := i + 1 to n
        invariant total == PairTotal(e, norm, dot, i) + RowTotal(e, norm, dot, i, j)
        invariant pairs == PairCount(e, norm, i) + RowPairs(e, norm, i, j)
      {
        var denom := norm(e[i]) * norm(e[j]);
        if denom == 0.0 {
          continue;
        }
        var sim := dot(e[i], e[j]) / denom;
        total := total + (1.0 - sim);
        pairs := pairs + 1;
      }
    }
    r := if pairs > 0 then total / pairs as real else 0.0;
  }

  lemma {:induction false} RowBounds(e: seq<Vector>, norm: Vector -> real, dot: (Vector, Vector) -> real, i: nat, j: nat)
    requires CosineBounded(norm, dot) && i < |e| && j <= |e|
    ensures 0.0 <= RowTotal(e, norm, dot, i, j) <= 2.0 * RowPairs(e, norm, i, j) as real
  {
    if j > i + 1 {
      RowBounds(e, norm, dot, i, j - 1);
      var t, p := RowTotal(e, norm, dot, i, j - 1), RowPairs(e, norm, i, j - 1) as real;
      if Counted(e, norm, i, j - 1) {
        DissimilarityBounds(e, norm, dot, i, j - 1);
        var d := Dissimilarity(e, norm, dot, i, j - 1);
        assert RowTotal(e, norm, dot, i, j) == t + d;
        assert RowPairs(e, norm, i, j) as real == p + 1.0;
      } else {
        assert RowTotal(e, norm, dot, i, j) == t;
        assert RowPairs(e, norm, i, j) as real == p;
      }
    }
  }

  /** A counted pair's dissimilarity lies in [0, 2]. */
  lemma DissimilarityBounds(e: seq<Vector>, norm: Vector -> real, dot: (Vector, Vector) -> real, i: nat, j: nat)
    requires CosineBounded(norm, dot) && i < |e| && j < |e| && Counted(e, norm, i, j)
    ensures 0.0 <= Dissimilarity(e, norm, dot, i, j) <= 2.0
  {
    var sim := dot(e[i], e[j]) / (norm(e[i]) * norm(e[j]));
    assert Dissimilarity(e, norm, dot, i, j) == 1.0 - sim;
    assert -1.0 <= sim <= 1.0;
  }

  lemma {:induction false} PairBounds(e: seq<Vector>, norm: Vector -> real, dot: (Vector, Vector) -> real, i: nat)
    requires CosineBounded(norm, dot) && i <= |e|
    ensures 0.0 <= PairTotal(e, norm, dot, i) <= 2.0 * PairCount(e, norm, i) as real
  {
    if i > 0 {
      PairBounds(e, norm, dot, i - 1);
      RowBounds(e, norm, dot, i - 1, |e|);
    }
  }

  /** With cosine similarities in [-1, 1], the diversity lies in [0, 2]. */
  lemma IldRange(e: seq<Vector>, norm: Vector -> real, dot: (Vector, Vector) -> real)
    requires CosineBounded(norm, dot)
    ensures 0.0 <= Ild(e, norm, dot) <= 2.0
  {
    if |e| >= 2 {
      PairBounds(e, norm, dot, |e|);
      var pairs := PairCount(e, norm, |e|);
      if pairs > 0 {
        RatioBounds(PairTotal(e, norm, dot, |e|), pairs as real, 2.0);
      }
    }
  }

  lemma {:induction false} RowPairsAll(e: seq<Vector>, norm: Vector -> real, i: nat, j: nat)
    requires i < |e| && i < j <= |e|
    requires forall k :: 0 <= k < |e| ==> norm(e[k]) != 0.0
    ensures RowPairs(e, norm, i, j) == j - i - 1
  {
    if j > i + 1 {
      RowPairsAll(e, norm, i, j - 1);
      assert norm(e[i]) != 0.0 && norm(e[j - 1]) != 0.0;
    }
  }

  /** With no zero-norm embedding every one of the `n (n - 1) / 2` unordered
      pairs counts. */
  lemma {:induction false} PairCountAll(e: seq<Vector>, norm: Vector -> real, i: nat)
    requires i <= |e|
    requires forall k :: 0 <= k < |e| ==> norm(e[k]) != 0.0
    ensures 2 * PairCount(e, norm, i) == i * (2 * |e| - i - 1)
  {
    if i > 0 {
      PairCountAll(e, norm, i - 1);
      RowPairsAll(e, norm, i - 1, |e|);
      var n := |e|;
      assert (i - 1) * (2 * n - (i - 1) - 1) + 2 * (n - i) == i * (2 * n - i - 1);
    }
  }

  // ---------------------------------------------------------------------
  // coverage
  // ---------------------------------------------------------------------

  /** `len(set(categories)) + len(set(subcategories)) * 0.5` over the truthy
      values of the ranked list. */
  function Coverage(ranked: seq<Item>): real
  {
    |DistinctTruthy(Categories(ranked))| as real + 0.5 * |DistinctTruthy(Subcategories(ranked))| as real
  }

  /** Coverage is at most 1.5 per item, and 0 exactly when no item has a
      category or a subcategory. */
  lemma CoverageBounds(ranked: seq<Item>)
    ensures 0.0 <= Coverage(ranked) <= 1.5 * |ranked| as real
    ensures Coverage(ranked) == 0.0 <==>
      forall i :: 0 <= i < |ranked| ==> !Truthy(ranked[i].category) && !Truthy(ranked[i].subcategory)
  {
    var cs, ss := Categories(ranked), Subcategories(ranked);
    DistinctTruthyBound(cs);
    DistinctTruthyBound(ss);
    if exists i :: 0 <= i < |ranked| && (Truthy(ranked[i].category) || Truthy(ranked[i].subcategory)) {
      var i :| 0 <= i < |ranked| && (Truthy(ranked[i].category) || Truthy(ranked[i].subcategory));
      if Truthy(ranked[i].category) {
        assert ranked[i].category.value in DistinctTruthy(cs);
      } else {
        assert ranked[i].subcategory.value in DistinctTruthy(ss);
      }
    } else {
      assert DistinctTruthy(cs) == {};
      assert DistinctTruthy(ss) == {};
    }
  }
}
