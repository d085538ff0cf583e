// Small list helpers shared by several modules: slicing with Python's
// `xs[:n]` semantics, distinctness, and building a dict from key/value pairs.
module Lists {

  /** `s[:n]` for a non-negative or negative `n` treated as "keep nothing". */
  function Take<T>(s: seq<T>, n: int): (r: seq<T>)
    ensures |r| == if n <= 0 then 0 else if n < |s| then n else |s|
  {
    if n <= 0 then [] else if n < |s| then s[..n] else s
  }

  /** `s[:k]` for any `k`: a negative `k` drops `-k` elements from the end. */
  function Prefix<T>(s: seq<T>, k: int): (r: seq<T>)
    ensures |r| <= |s| && r == s[..|r|]
    ensures 0 <= k ==> |r| == if k < |s| then k else |s|
    ensures k < 0 ==> |r| == if |s| + k > 0 then |s| + k else 0
  {
    var n := if k >= 0 then (if k < |s| then k else |s|) else (if |s| + k > 0 then |s| + k else 0);
    s[..n]
  }

  /** No element occurs twice. */
  predicate DistinctSeq<T(==)>(s: seq<T>)
  {
    forall i, j :: 0 <= i < j < |s| ==> s[i] != s[j]
  }

  /** Position `i` holds the last occurrence of its key. */
  predicate LastOccurrence<K(==)>(ks: seq<K>, i: nat)
    requires i < |ks|
  {
    forall j :: i < j < |ks| ==> ks[j] != ks[i]
  }

  /** Every key of `ks` has a last occurrence. */
  lemma {:induction false} LastOccurrenceOf<K>(ks: seq<K>, k: K) returns (i: nat)
    requires k in ks
    ensures i < |ks| && ks[i] == k && LastOccurrence(ks, i)
  {
    var n := |ks| - 1;
    if ks[n] == k {
      i := n;
    } else {
      assert k in ks[..n];
      i := LastOccurrenceOf(ks[..n], k);
      assert ks[..n][i] == ks[i];
    }
  }

  /** `{k: v for k, v in zip(ks, vs)}`: a later pair overrides an earlier one. */
  function PairsMap<K(==, !new), V>(ks: seq<K>, vs: seq<V>): (m: map<K, V>)
    requires |ks| == |vs|
    ensures forall k :: k in m <==> k in ks
  {
    if ks == [] then map[]
    else
      var n := |ks| - 1;
      assert ks == ks[..n] + [ks[n]];
      PairsMap(ks[..n], vs[..n])[ks[n] := vs[n]]
  }

  /** A key maps to the value paired with its last occurrence. */
  lemma {:induction false} PairsMapAt<K(!new), V>(ks: seq<K>, vs: seq<V>, i: nat)
    requires |ks| == |vs| && i < |ks| && LastOccurrence(ks, i)
    ensures ks[i] in PairsMap(ks, vs) && PairsMap(ks, vs)[ks[i]] == vs[i]
  {
    var n := |ks| - 1;
    if i < n {
      assert ks[n] != ks[i];
      assert LastOccurrence(ks[..n], i) by {
        assert forall j :: i < j < n ==> ks[..n][j] == ks[j];
      }
      PairsMapAt(ks[..n], vs[..n], i);
      assert ks[..n][i] == ks[i] && vs[..n][i] == vs[i];
    }
  }

  /** Each key maps to the value paired with its last occurrence. */
  lemma PairsMapFacts<K(!new), V>(ks: seq<K>, vs: seq<V>)
    requires |ks| == |vs|
    ensures forall i :: 0 <= i < |ks| && LastOccurrence(ks, i) ==> PairsMap(ks, vs)[ks[i]] == vs[i]
  {
    forall i | 0 <= i < |ks| && LastOccurrence(ks, i)
      ensures PairsMap(ks, vs)[ks[i]] == vs[i]
    {
      PairsMapAt(ks, vs, i);
    }
  }

  lemma PairsMapSnoc<K(!new), V>(ks: seq<K>, vs: seq<V>, k: K, v: V)
    requires |ks| == |vs|
    ensures PairsMap(ks + [k], vs + [v]) == PairsMap(ks, vs)[k := v]
  {
    assert (ks + [k])[..|ks|] == ks;
    assert (vs + [v])[..|vs|] == vs;
  }

  /** The distinct elements of `s` in first-seen order: the key order of a
      Python dict filled from `s`. */
  function FirstSeen<T(==, !new)>(s: seq<T>): (r: seq<T>)
    ensures DistinctSeq(r)
    ensures forall x :: x in r <==> x in s
  {
    if s == [] then []
    else
      var p := s[..|s| - 1];
      var r := FirstSeen(p);
      assert forall x :: x in s <==> x in p || x == s[|s| - 1];
      if s[|s| - 1] in r then r else r + [s[|s| - 1]]
  }

  /** Appending one element extends the first-seen order only when it is new. */
  lemma FirstSeenSnoc<T(!new)>(s: seq<T>, x: T)
    ensures FirstSeen(s + [x]) == if x in FirstSeen(s) then FirstSeen(s) else FirstSeen(s) + [x]
  {
    assert (s + [x])[..|s|] == s;
  }

  /** An element of the first-seen order occurs in it exactly once. */
  lemma {:induction false} FirstSeenSplit<T(!new)>(s: seq<T>, x: T) returns (a: seq<T>, b: seq<T>)
    requires x in s
    ensures FirstSeen(s) == a + [x] + b && x !in a && x !in b
  {
    var n := |s| - 1;
    var p := s[..n];
    assert s == p + [s[n]];
    FirstSeenSnoc(p, s[n]);
    if x == s[n] && x !in FirstSeen(p) {
      a, b := FirstSeen(p), [];
    } else {
      assert x in p;
      a, b := FirstSeenSplit(p, x);
      if s[n] !in FirstSeen(p) {
        b := b + [s[n]];
      }
    }
  }

  /** How often `x` occurs in `s`. */
  function Count<T(==, !new)>(s: seq<T>, x: T): (n: nat)
    ensures n <= |s|
    ensures n == 0 <==> x !in s
  {
    if s == [] then 0
    else
      var p := s[..|s| - 1];
      assert forall y :: y in s <==> y in p || y == s[|s| - 1];
      Count(p, x) + if s[|s| - 1] == x then 1 else 0
  }

  lemma CountSnoc<T(!new)>(s: seq<T>, x: T, y: T)
    ensures Count(s + [x], y) == Count(s, y) + if x == y then 1 else 0
  {
    assert (s + [x])[..|s|] == s;
  }

  /** The occurrences of every element of `ks`, added up. */
  function CountAll<T(==, !new)>(s: seq<T>, ks: seq<T>): nat
  {
    if ks == [] then 0 else CountAll(s, ks[..|ks| - 1]) + Count(s, ks[|ks| - 1])
  }

  lemma {:induction false} CountAllSnocAbsent<T(!new)>(s: seq<T>, x: T, ks: seq<T>)
    requires x !in ks
    ensures CountAll(s + [x], ks) == CountAll(s, ks)
  {
    if ks != [] {
      var n := |ks| - 1;
      assert x !in ks[..n];
      CountAllSnocAbsent(s, x, ks[..n]);
      CountSnoc(s, x, ks[n]);
    }
  }

  lemma {:induction false} CountAllAppend<T(!new)>(s: seq<T>, a: seq<T>, b: seq<T>)
    ensures CountAll(s, a + b) == CountAll(s, a) + CountAll(s, b)
  {
    if b != [] {
      var n := |b| - 1;
      assert (a + b)[..|a| + n] == a + b[..n];
      CountAllAppend(s, a, b[..n]);
    } else {
      assert a + b == a;
    }
  }

  /** Counting every distinct element of `s` once counts all of `s`. */
  lemma {:induction false} CountPartition<T(!new)>(s: seq<T>)
    ensures CountAll(s, FirstSeen(s)) == |s|
  {
    if s != [] {
      var n := |s| - 1;
      var p, x := s[..n], s[n];
      assert s == p + [x];
      CountPartition(p);
      CountPartitionStep(p, x);
    }
  }

  /** One more element adds one to the count over the first-seen order. */
  lemma CountPartitionStep<T(!new)>(p: seq<T>, x: T)
    ensures CountAll(p + [x], FirstSeen(p + [x])) == CountAll(p, FirstSeen(p)) + 1
  {
    FirstSeenSnoc(p, x);
    var f := FirstSeen(p);
    if x in f {
      var a, b := FirstSeenSplit(p, x);
      CountAllSnocAbsent(p, x, a);
      CountAllSnocAbsent(p, x, b);
      CountAllAppend(p + [x], a + [x], b);
      CountAllAppend(p, a + [x], b);
      assert (a + [x])[..|a|] == a;
      CountSnoc(p, x, x);
    } else {
      assert (f + [x])[..|f|] == f;
      CountAllSnocAbsent(p, x, f);
      CountSnoc(p, x, x);
    }
  }

  /** Dropping the last element of a distinct sequence keeps it distinct,
      and that element is not among the rest. */
  lemma DistinctInit<T>(s: seq<T>)
    requires s != [] && DistinctSeq(s)
    ensures DistinctSeq(s[..|s| - 1]) && s[|s| - 1] !in s[..|s| - 1]
  {
  }

  /** The set of the elements of `s`, built element by element. */
  function Elems<T>(s: seq<T>): (r: set<T>)
    ensures r == set y | y in s
  {
    if s == [] then {}
    else
      var p := s[..|s| - 1];
      assert s == p + [s[|s| - 1]];
      Elems(p) + {s[|s| - 1]}
  }

  /** A sequence has at most as many distinct elements as it is long. */
  lemma {:induction false} ElemsBound<T>(s: seq<T>)
    ensures |Elems(s)| <= |s|
  {
    if s != [] {
      ElemsBound(s[..|s| - 1]);
    }
  }

  /** A sequence without repetitions has as many elements as its set. */
  lemma {:induction false} DistinctCard<T>(s: seq<T>)
    requires DistinctSeq(s)
    ensures |Elems(s)| == |s|
  {
    if s != [] {
      DistinctInit(s);
      DistinctCard(s[..|s| - 1]);
    }
  }


  /** Writing a key twice keeps only the second value. */
  lemma UpdateTwice<K, V>(m: map<K, V>, k: K, v: V, w: V)
    ensures m[k := v][k := w] == m[k := w]
  {
  }
}
