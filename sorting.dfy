// Python's `sorted(xs, key=k, reverse=True)` / `xs.sort(key=k, reverse=True)`:
// a stable sort by non-increasing key. Modelled as an insertion sort on the
// indices of the list, so that its result is an explicit permutation.
module Sorting {

  /** Every entry of `p` is an index into a list of length `n`. */
  predicate IndicesIn(p: seq<nat>, n: nat)
  {
    forall i :: 0 <= i < |p| ==> p[i] < n
  }

  /** No index occurs twice in `p`. */
  predicate Distinct(p: seq<nat>)
  {
    forall i, j :: 0 <= i < j < |p| ==> p[i] != p[j]
  }

  /** `p` lists each of the indices `0 .. n-1` exactly once. */
  predicate IsPermutation(p: seq<nat>, n: nat)
  {
    |p| == n && IndicesIn(p, n) && Distinct(p) && forall k :: 0 <= k < n ==> k in p
  }

  /** The keys met along `p` never increase. */
  predicate SortedDesc(keys: seq<real>, p: seq<nat>)
    requires IndicesIn(p, |keys|)
  {
    forall i, j :: 0 <= i < j < |p| ==> keys[p[i]] >= keys[p[j]]
  }

  /** Equal keys keep their original relative order along `p`. */
  predicate Stable(keys: seq<real>, p: seq<nat>)
    requires IndicesIn(p, |keys|)
  {
    forall i, j :: 0 <= i < j < |p| && keys[p[i]] == keys[p[j]] ==> p[i] < p[j]
  }

  /** Places index `x` after every index of `p` whose key is at least its own. */
  function Insert(keys: seq<real>, x: nat, p: seq<nat>): (r: seq<nat>)
    requires x < |keys| && IndicesIn(p, |keys|)
    ensures |r| == |p| + 1 && IndicesIn(r, |keys|)
    ensures forall y :: y in r <==> y in p || y == x
  {
    if p == [] then [x]
    else if keys[p[0]] < keys[x] then [x] + p
    else [p[0]] + Insert(keys, x, p[1..])
  }

  lemma {:induction false} InsertDistinct(keys: seq<real>, x: nat, p: seq<nat>)
    requires x < |keys| && IndicesIn(p, |keys|) && Distinct(p) && x !in p
    ensures Distinct(Insert(keys, x, p))
  {
    if p != [] && keys[p[0]] >= keys[x] {
      InsertDistinct(keys, x, p[1..]);
      var t := Insert(keys, x, p[1..]);
      assert p[0] !in p[1..];
      assert p[0] !in t;
    }
  }

  lemma {:induction false} InsertSorted(keys: seq<real>, x: nat, p: seq<nat>)
    requires x < |keys| && IndicesIn(p, |keys|) && SortedDesc(keys, p)
    ensures SortedDesc(keys, Insert(keys, x, p))
  {
    if p != [] && keys[p[0]] >= keys[x] {
      InsertSorted(keys, x, p[1..]);
      var t := Insert(keys, x, p[1..]);
      forall j | 0 <= j < |t| ensures keys[p[0]] >= keys[t[j]] {
        assert t[j] in t;
        if t[j] != x {
          var k :| 0 <= k < |p[1..]| && p[1..][k] == t[j];
          assert p[k + 1] == t[j];
        }
      }
    }
  }

  lemma {:induction false} InsertStable(keys: seq<real>, x: nat, p: seq<nat>)
    requires x < |keys| && IndicesIn(p, |keys|) && SortedDesc(keys, p) && Stable(keys, p)
    requires forall i :: 0 <= i < |p| ==> p[i] < x
    ensures Stable(keys, Insert(keys, x, p))
  {
    if p != [] && keys[p[0]] >= keys[x] {
      InsertStable(keys, x, p[1..]);
      var t := Insert(keys, x, p[1..]);
      forall j | 0 <= j < |t| && keys[p[0]] == keys[t[j]] ensures p[0] < t[j] {
        assert t[j] in t;
        if t[j] != x {
          var k :| 0 <= k < |p[1..]| && p[1..][k] == t[j];
          assert p[k + 1] == t[j];
        }
      }
    }
  }

  /** The stable descending order of the first `n` indices. */
  function SortPrefix(keys: seq<real>, n: nat): (r: seq<nat>)
    requires n <= |keys|
    ensures IsPermutation(r, n) && SortedDesc(keys, r) && Stable(keys, r)
  {
    if n == 0 then []
    else
      var p := SortPrefix(keys, n - 1);
      InsertNext(keys, n, p);
      Insert(keys, n - 1, p)
  }

  /** Inserting the next index into a stable descending permutation of the
      ones before it gives a stable descending permutation of one more. */
  lemma InsertNext(keys: seq<real>, n: nat, p: seq<nat>)
    requires 0 < n <= |keys| && IsPermutation(p, n - 1) && SortedDesc(keys, p) && Stable(keys, p)
    ensures var r := Insert(keys, n - 1, p);
      IsPermutation(r, n) && SortedDesc(keys, r) && Stable(keys, r)
  {
    var r := Insert(keys, n - 1, p);
    InsertSorted(keys, n - 1, p);
    InsertStable(keys, n - 1, p);
    InsertDistinct(keys, n - 1, p);
    forall i | 0 <= i < |r|
      ensures r[i] < n
    {
      assert r[i] in r;
    }
    forall k | 0 <= k < n
      ensures k in r
    {
      if k < n - 1 {
        assert k in p;
      }
    }
  }

  /** The order in which a stable descending sort by `keys` lists the indices. */
  function SortIndicesDesc(keys: seq<real>): (r: seq<nat>)
    ensures IsPermutation(r, |keys|) && SortedDesc(keys, r) && Stable(keys, r)
  {
    SortPrefix(keys, |keys|)
  }

  /** The elements of `s` in the order `p` lists them. */
  function Permute<T>(s: seq<T>, p: seq<nat>): (r: seq<T>)
    requires IndicesIn(p, |s|)
    ensures |r| == |p| && forall i :: 0 <= i < |p| ==> r[i] == s[p[i]]
  {
    seq(|p|, i requires 0 <= i < |p| => s[p[i]])
  }

  /** A permutation of the indices lists the same elements. */
  lemma PermuteElements<T(!new)>(s: seq<T>, p: seq<nat>)
    requires IsPermutation(p, |s|)
    ensures forall x :: x in Permute(s, p) <==> x in s
  {
    var r := Permute(s, p);
    forall x | x in s ensures x in r {
      var k :| 0 <= k < |s| && s[k] == x;
      assert k in p;
      var i :| 0 <= i < |p| && p[i] == k;
      assert r[i] == x;
    }
  }

  /** Listing index `a` first, then the indices of `q`. */
  lemma PermuteCons<T>(s: seq<T>, a: nat, q: seq<nat>)
    requires a < |s| && IndicesIn(q, |s|)
    ensures Permute(s, [a] + q) == [s[a]] + Permute(s, q)
  {
  }

  /** Inserting index `x` adds exactly one copy of `s[x]` to the listed elements. */
  lemma {:induction false} InsertMultiset<T>(s: seq<T>, keys: seq<real>, x: nat, p: seq<nat>)
    requires |s| == |keys| && x < |keys| && IndicesIn(p, |keys|)
    ensures multiset(Permute(s, Insert(keys, x, p))) == multiset(Permute(s, p)) + multiset{s[x]}
  {
    if p == [] {
      ConsMultiset(s, x, [], [], multiset{});
    } else if keys[p[0]] < keys[x] {
      ConsMultiset(s, x, [], p, multiset(Permute(s, p)));
    } else {
      var t := Insert(keys, x, p[1..]);
      assert Insert(keys, x, p) == [p[0]] + t;
      InsertMultiset(s, keys, x, p[1..]);
      ConsMultiset(s, p[0], p[1..], t, multiset{s[x]});
      assert [p[0]] + p[1..] == p;
    }
  }

  /** Listing one more index in front of two lists keeps the difference
      between their elements. */
  lemma ConsMultiset<T>(s: seq<T>, a: nat, q: seq<nat>, q': seq<nat>, m: multiset<T>)
    requires a < |s| && IndicesIn(q, |s|) && IndicesIn(q', |s|)
    requires multiset(Permute(s, q')) == multiset(Permute(s, q)) + m
    ensures multiset(Permute(s, [a] + q')) == multiset(Permute(s, [a] + q)) + m
    ensures q == [] ==> multiset(Permute(s, [a] + q')) == m + multiset{s[a]}
  {
    PermuteCons(s, a, q);
    PermuteCons(s, a, q');
    assert Permute(s, []) == [];
  }

  /** The stable order of the first `n` indices lists the first `n` elements,
      each as often as it occurs there. */
  lemma {:induction false} SortPrefixMultiset<T>(s: seq<T>, keys: seq<real>, n: nat)
    requires |s| == |keys| && n <= |keys|
    ensures multiset(Permute(s, SortPrefix(keys, n))) == multiset(s[..n])
  {
    if n == 0 {
      assert Permute(s, []) == [];
    } else {
      var p := SortPrefix(keys, n - 1);
      SortPrefixMultiset(s, keys, n - 1);
      InsertNextMultiset(s, keys, n, p);
      assert SortPrefix(keys, n) == Insert(keys, n - 1, p);
    }
  }

  /** One step of `SortPrefixMultiset`: inserting index `n - 1` extends the
      listed elements from `s[..n - 1]` to `s[..n]`. */
  lemma InsertNextMultiset<T>(s: seq<T>, keys: seq<real>, n: nat, p: seq<nat>)
    requires |s| == |keys| && 0 < n <= |keys| && IndicesIn(p, |keys|)
    requires multiset(Permute(s, p)) == multiset(s[..n - 1])
    ensures multiset(Permute(s, Insert(keys, n - 1, p))) == multiset(s[..n])
  {
    InsertMultiset(s, keys, n - 1, p);
    assert s[..n] == s[..n - 1] + [s[n - 1]];
  }

  /** The key of every element of `xs`, position by position. */
  function KeysOf<T>(xs: seq<T>, key: T -> real): (ks: seq<real>)
    ensures |ks| == |xs| && forall i :: 0 <= i < |xs| ==> ks[i] == key(xs[i])
  {
    seq(|xs|, i requires 0 <= i < |xs| => key(xs[i]))
  }

  /** `sorted(xs, key=key, reverse=True)`: the same elements by non-increasing
      key; `SortByKeyDescIsStableSort` adds multiplicities and stability. */
  function SortByKeyDesc<T(!new)>(xs: seq<T>, key: T -> real): (r: seq<T>)
    ensures |r| == |xs|
    ensures forall x :: x in r <==> x in xs
    ensures forall i, j :: 0 <= i < j < |r| ==> key(r[i]) >= key(r[j])
  {
    var keys := KeysOf(xs, key);
    var p := SortIndicesDesc(keys);
    PermuteElements(xs, p);
    Permute(xs, p)
  }

  /** `SortByKeyDesc` is a stable sort: it keeps every element as often as it
      occurs, and lists the elements along a descending order of the original
      positions in which equal keys keep their original relative order. */
  lemma SortByKeyDescIsStableSort<T(!new)>(xs: seq<T>, key: T -> real)
    ensures multiset(SortByKeyDesc(xs, key)) == multiset(xs)
    ensures exists p :: IsPermutation(p, |xs|) && SortedDesc(KeysOf(xs, key), p) && Stable(KeysOf(xs, key), p)
                        && SortByKeyDesc(xs, key) == Permute(xs, p)
  {
    var keys := KeysOf(xs, key);
    var p := SortIndicesDesc(keys);
    assert SortByKeyDesc(xs, key) == Permute(xs, p);
    SortPrefixMultiset(xs, keys, |keys|);
    assert xs[..|xs|] == xs;
  }
}
