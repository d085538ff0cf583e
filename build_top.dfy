// The batch interest-profile builder of `ml/scripts/build_top.py`: one
// user's impressions are accumulated into a root, per-category and
// per-subcategory counters (the user's ToP, "tree of preferences"), each node
// is finalised with a CTR and an underexplored score, the tree is flattened
// into the node rows of `user_top_nodes`, and the twenty most underexplored
// paths are kept.
module BuildTop {
  import opened Wrappers
  import opened Numeric
  import opened Lists
  import Sorting
  import FeedTypes
  import RetrievalPgvector

  const Epsilon: real := 0.000001
  const MaxPaths: int := 20

  /** One row of `fetch_user_impressions`: an impression of one item. */
  datatype ImpressionRow = ImpressionRow(
    impressionId: string, time: Option<string>, newsId: string,
    clicked: bool, category: string, subcategory: Option<string>)

  // ---------------------------------------------------------------------
  // Ages and weights

  /** `decay_weight`: 1 without a positive half-life, else
      `exp(-ln 2 * age / half_life)`. */
  function DecayWeight(exp: real -> real, age: real, halfLife: real): (w: real)
    ensures halfLife <= 0.0 ==> w == 1.0
    ensures IsExp(exp) ==> w > 0.0
  {
    if halfLife <= 0.0 then 1.0 else Decay(exp, age, halfLife)
  }

  /** A non-negative age weighs at most 1. */
  lemma DecayWeightAtMostOne(exp: real -> real, age: real, halfLife: real)
    requires IsExp(exp) && age >= 0.0
    ensures 0.0 < DecayWeight(exp, age, halfLife) <= 1.0
  {
    if halfLife > 0.0 {
      DecayBounds(exp, age, halfLife);
    }
  }

  /** An older impression never weighs more than a newer one. */
  lemma DecayWeightMonotone(exp: real -> real, younger: real, older: real, halfLife: real)
    requires IsExp(exp) && younger <= older
    ensures DecayWeight(exp, older, halfLife) <= DecayWeight(exp, younger, halfLife)
  {
    if halfLife > 0.0 {
      var a, b := LN2 * younger, LN2 * older;
      assert a <= b;
      assert b / halfLife >= a / halfLife;
      assert -LN2 * older / halfLife <= -LN2 * younger / halfLife;
    }
  }

  function ImpressionIds(rows: seq<ImpressionRow>): (ids: seq<string>)
    ensures |ids| == |rows|
  {
    seq(|rows|, i requires 0 <= i < |rows| => rows[i].impressionId)
  }

  /** No timestamp fails to parse (`use_fallback` is false). */
  predicate AllParse(rows: seq<ImpressionRow>, strptime: string -> Option<real>)
  {
    forall i :: 0 <= i < |rows| ==> RetrievalPgvector.ParseTime(rows[i].time, strptime).Some?
  }

  function ParsedTimes(rows: seq<ImpressionRow>, strptime: string -> Option<real>): (ts: seq<real>)
    requires AllParse(rows, strptime)
    ensures |ts| == |rows|
  {
    seq(|rows|, i requires 0 <= i < |rows| => RetrievalPgvector.ParseTime(rows[i].time, strptime).value)
  }

  /** The age of each row, in the units the source uses: the row index when
      some time does not parse, else the days before the latest time. */
  function RowAges(rows: seq<ImpressionRow>, strptime: string -> Option<real>): (ages: seq<real>)
    requires rows != []
    ensures |ages| == |rows|
    ensures forall i :: 0 <= i < |rows| ==> ages[i] >= 0.0
  {
    if !AllParse(rows, strptime) then seq(|rows|, i => i as real)
    else
      var ts := ParsedTimes(rows, strptime);
      var now := Max(ts);
      seq(|rows|, i requires 0 <= i < |rows| => RetrievalPgvector.ElapsedDays(now, ts[i]))
  }

  /** `age_map`, keyed by impression id; a later row with the same id wins. */
  function AgeMap(rows: seq<ImpressionRow>, strptime: string -> Option<real>): (m: map<string, real>)
    requires rows != []
    ensures forall id :: id in m <==> id in ImpressionIds(rows)
  {
    PairsMap(ImpressionIds(rows), RowAges(rows, strptime))
  }

  /** The age the accumulation loop reads for one row. */
  function AgeOf(m: map<string, real>, id: string): real
  {
    if id in m then m[id] else 0.0
  }

  /** Every age in the map is non-negative; in fallback mode the age of an
      impression is the index of its last row, and otherwise the age of the
      last row of an impression is its distance in days from the latest
      parsed time, which is itself one of the parsed times. */
  lemma AgeMapValues(rows: seq<ImpressionRow>, strptime: string -> Option<real>, id: string)
    requires rows != [] && id in ImpressionIds(rows)
    ensures AgeOf(AgeMap(rows, strptime), id) >= 0.0
    ensures exists i :: (0 <= i < |rows| && rows[i].impressionId == id && LastOccurrence(ImpressionIds(rows), i)
      && (!AllParse(rows, strptime) ==> AgeOf(AgeMap(rows, strptime), id) == i as real)
      && (AllParse(rows, strptime) ==>
            AgeOf(AgeMap(rows, strptime), id)
              == RetrievalPgvector.ElapsedDays(Max(ParsedTimes(rows, strptime)), ParsedTimes(rows, strptime)[i])))
  {
    var i := LastOccurrenceOf(ImpressionIds(rows), id);
    assert rows[i].impressionId == id;
    PairsMapAt(ImpressionIds(rows), RowAges(rows, strptime), i);
  }

  // ---------------------------------------------------------------------
  // Counters

  /** The four counters every node of the tree carries. */
  datatype Counts = Counts(exposures: int, clicks: int, interestWeight: real, exposureWeight: real)

  const Zero: Counts := Counts(0, 0, 0.0, 0.0)

  function Add(a: Counts, b: Counts): Counts
  {
    Counts(a.exposures + b.exposures, a.clicks + b.clicks,
           a.interestWeight + b.interestWeight, a.exposureWeight + b.exposureWeight)
  }

  /** One row as the accumulation loop sees it: its category, its subcategory
      key `subcategory or ""`, the raw subcategory, the click and the weight. */
  datatype Obs = Obs(category: string, subKey: string, subcategory: Option<string>, clicked: bool, weight: real)

  function SubKey(subcategory: Option<string>): string
  {
    if FeedTypes.Truthy(subcategory) then subcategory.value else ""
  }

  /** What one row adds to each node on its path. */
  function Contribution(o: Obs): Counts
  {
    Counts(1, if o.clicked then 1 else 0, if o.clicked then o.weight else 0.0, o.weight)
  }

  /** The rows of `compute_top` with their weights. */
  function Observations(rows: seq<ImpressionRow>, halfLife: real, strptime: string -> Option<real>,
                        exp: real -> real): (obs: seq<Obs>)
    requires rows != []
    ensures |obs| == |rows|
  {
    var m := AgeMap(rows, strptime);
    seq(|rows|, i requires 0 <= i < |rows| =>
      Obs(rows[i].category, SubKey(rows[i].subcategory), rows[i].subcategory, rows[i].clicked,
          DecayWeight(exp, AgeOf(m, rows[i].impressionId), halfLife)))
  }

  /** Every weight lies in (0, 1]. */
  lemma ObservationWeights(rows: seq<ImpressionRow>, halfLife: real, strptime: string -> Option<real>,
                           exp: real -> real)
    requires rows != [] && IsExp(exp)
    ensures var obs := Observations(rows, halfLife, strptime, exp);
      forall i :: 0 <= i < |obs| ==> 0.0 < obs[i].weight <= 1.0
  {
    var obs := Observations(rows, halfLife, strptime, exp);
    forall i | 0 <= i < |obs| ensures 0.0 < obs[i].weight <= 1.0 {
      var id := rows[i].impressionId;
      assert ImpressionIds(rows)[i] == id;
      AgeMapValues(rows, strptime, id);
      DecayWeightAtMostOne(exp, AgeOf(AgeMap(rows, strptime), id), halfLife);
    }
  }

  /** The counters summed over some rows. */
  function Total(obs: seq<Obs>): Counts
  {
    if obs == [] then Zero else Add(Total(obs[..|obs| - 1]), Contribution(obs[|obs| - 1]))
  }

  lemma TotalSnoc(obs: seq<Obs>, o: Obs)
    ensures Total(obs + [o]) == Add(Total(obs), Contribution(o))
  {
    assert (obs + [o])[..|obs|] == obs;
  }

  function CategoryOf(o: Obs): string { o.category }
  function SubKeyOf(o: Obs): string { o.subKey }
  function ClickedOf(o: Obs): bool { o.clicked }

  /** The key of every row. */
  function KeysOf<K>(obs: seq<Obs>, key: Obs -> K): (ks: seq<K>)
    ensures |ks| == |obs|
  {
    seq(|obs|, i requires 0 <= i < |obs| => key(obs[i]))
  }

  /** The rows whose key is `k`, in order. */
  function Where<K(==)>(obs: seq<Obs>, key: Obs -> K, k: K): (w: seq<Obs>)
    ensures |w| <= |obs|
  {
    if obs == [] then []
    else
      var p := Where(obs[..|obs| - 1], key, k);
      if key(obs[|obs| - 1]) == k then p + [obs[|obs| - 1]] else p
  }

  lemma WhereSnoc<K>(obs: seq<Obs>, o: Obs, key: Obs -> K, k: K)
    ensures Where(obs + [o], key, k) == if key(o) == k then Where(obs, key, k) + [o] else Where(obs, key, k)
  {
    assert (obs + [o])[..|obs|] == obs;
  }

  lemma KeysSnoc<K>(obs: seq<Obs>, o: Obs, key: Obs -> K)
    ensures KeysOf(obs + [o], key) == KeysOf(obs, key) + [key(o)]
  {
  }

  /** A key no row has selects nothing. */
  lemma {:induction false} WhereAbsent<K>(obs: seq<Obs>, key: Obs -> K, k: K)
    requires k !in KeysOf(obs, key)
    ensures Where(obs, key, k) == []
  {
    if obs != [] {
      var n := |obs| - 1;
      assert obs == obs[..n] + [obs[n]];
      KeysSnoc(obs[..n], obs[n], key);
      WhereAbsent(obs[..n], key, k);
    }
  }

  /** A key some row has selects at least that row. */
  lemma {:induction false} WherePresent<K>(obs: seq<Obs>, key: Obs -> K, k: K)
    requires k in KeysOf(obs, key)
    ensures Where(obs, key, k) != []
  {
    var n := |obs| - 1;
    assert obs == obs[..n] + [obs[n]];
    KeysSnoc(obs[..n], obs[n], key);
    if key(obs[n]) != k {
      WherePresent(obs[..n], key, k);
    }
  }

  /** The counters of the rows of each key in `ks`, added up. */
  function SumWhere<K(==)>(obs: seq<Obs>, key: Obs -> K, ks: seq<K>): Counts
  {
    if ks == [] then Zero
    else Add(SumWhere(obs, key, ks[..|ks| - 1]), Total(Where(obs, key, ks[|ks| - 1])))
  }

  /** A row whose key is not listed changes none of the listed groups. */
  lemma {:induction false} SumWhereSnocAbsent<K>(obs: seq<Obs>, o: Obs, key: Obs -> K, ks: seq<K>)
    requires key(o) !in ks
    ensures SumWhere(obs + [o], key, ks) == SumWhere(obs, key, ks)
  {
    if ks != [] {
      var n := |ks| - 1;
      assert key(o) !in ks[..n];
      SumWhereSnocAbsent(obs, o, key, ks[..n]);
      WhereSnoc(obs, o, key, ks[n]);
    }
  }

  /** The groups of a concatenated key list add up. */
  lemma {:induction false} SumWhereAppend<K>(obs: seq<Obs>, key: Obs -> K, a: seq<K>, b: seq<K>)
    ensures SumWhere(obs, key, a + b) == Add(SumWhere(obs, key, a), SumWhere(obs, key, b))
  {
    if b != [] {
      var n := |b| - 1;
      assert (a + b)[..|a| + n] == a + b[..n];
      SumWhereAppend(obs, key, a, b[..n]);
    } else {
      assert a + b == a;
    }
  }

  /** The groups of `a`, then `x`, then `b`. */
  lemma SumWhereSplit<K>(obs: seq<Obs>, key: Obs -> K, a: seq<K>, x: K, b: seq<K>)
    ensures SumWhere(obs, key, a + [x] + b)
         == Add(Add(SumWhere(obs, key, a), Total(Where(obs, key, x))), SumWhere(obs, key, b))
  {
    SumWhereAppend(obs, key, a + [x], b);
    assert (a + [x])[..|a|] == a;
  }

  /** A row whose key is listed once adds its contribution once. */
  lemma SumWhereSnocOnce<K>(obs: seq<Obs>, o: Obs, key: Obs -> K, a: seq<K>, b: seq<K>)
    requires key(o) !in a && key(o) !in b
    ensures SumWhere(obs + [o], key, a + [key(o)] + b)
         == Add(SumWhere(obs, key, a + [key(o)] + b), Contribution(o))
  {
    SumWhereSnocAbsent(obs, o, key, a);
    SumWhereSnocAbsent(obs, o, key, b);
    SumWhereSplit(obs + [o], key, a, key(o), b);
    SumWhereSplit(obs, key, a, key(o), b);
    WhereSnoc(obs, o, key, key(o));
    TotalSnoc(Where(obs, key, key(o)), o);
  }

  /** Grouping the rows by any key and adding the groups up gives the
      counters of all rows. */
  lemma {:induction false} PartitionTotal<K(!new)>(obs: seq<Obs>, key: Obs -> K)
    ensures SumWhere(obs, key, FirstSeen(KeysOf(obs, key))) == Total(obs)
  {
    if obs != [] {
      var n := |obs| - 1;
      var p, o := obs[..n], obs[n];
      assert obs == p + [o];
      PartitionTotal(p, key);
      KeysSnoc(p, o, key);
      TotalSnoc(p, o);
      PartitionTotalStep(p, o, key);
    }
  }

  /** One more row adds its contribution to the groups' sum. */
  lemma PartitionTotalStep<K(!new)>(p: seq<Obs>, o: Obs, key: Obs -> K)
    ensures SumWhere(p + [o], key, FirstSeen(KeysOf(p, key) + [key(o)]))
         == Add(SumWhere(p, key, FirstSeen(KeysOf(p, key))), Contribution(o))
  {
    FirstSeenSnoc(KeysOf(p, key), key(o));
    if key(o) in FirstSeen(KeysOf(p, key)) {
      var a, b := FirstSeenSplit(KeysOf(p, key), key(o));
      SumWhereSnocOnce(p, o, key, a, b);
    } else {
      NewGroupStep(p, o, key, FirstSeen(KeysOf(p, key)));
    }
  }

  /** A row with a key not seen before opens a group of its own. */
  lemma NewGroupStep<K(!new)>(p: seq<Obs>, o: Obs, key: Obs -> K, f: seq<K>)
    requires key(o) !in f && key(o) !in KeysOf(p, key)
    ensures SumWhere(p + [o], key, f + [key(o)]) == Add(SumWhere(p, key, f), Contribution(o))
  {
    var f2 := f + [key(o)];
    assert f2[..|f|] == f;
    SumWhereSnocAbsent(p, o, key, f);
    WhereAbsent(p, key, key(o));
    WhereSnoc(p, o, key, key(o));
    TotalSnoc([], o);
    assert [] + [o] == [o];
  }

  /** Every row is counted once as an exposure, and once more as a click
      when it was clicked. */
  lemma {:induction false} TotalCounts(obs: seq<Obs>)
    ensures Total(obs).exposures == |obs|
    ensures Total(obs).clicks == |Where(obs, ClickedOf, true)|
  {
    if obs != [] {
      var n := |obs| - 1;
      TotalCounts(obs[..n]);
    }
  }

  /** With non-negative weights, clicks never exceed exposures and the
      interest weight never exceeds the exposure weight. */
  lemma {:induction false} TotalBounds(obs: seq<Obs>)
    requires forall i :: 0 <= i < |obs| ==> obs[i].weight >= 0.0
    ensures 0 <= Total(obs).clicks <= Total(obs).exposures
    ensures 0.0 <= Total(obs).interestWeight <= Total(obs).exposureWeight
  {
    if obs != [] {
      var n := |obs| - 1;
      TotalBounds(obs[..n]);
    }
  }

  // ---------------------------------------------------------------------
  // The tree

  /** A subcategory node: the raw subcategory of its first row and its counters. */
  datatype SubAcc = SubAcc(subcategory: Option<string>, counts: Counts)

  /** A category node: its counters and its subcategory nodes, keyed by
      subcategory key, with the keys in insertion order. */
  datatype CatAcc = CatAcc(counts: Counts, subOrder: seq<string>, subs: map<string, SubAcc>)

  /** The root counters and the category nodes, keys in insertion order. */
  datatype Tree = Tree(root: Counts, catOrder: seq<string>, cats: map<string, CatAcc>)

  const EmptyCategory: CatAcc := CatAcc(Zero, [], map[])

  /** The subcategory update of one row. */
  function AddToSub(subs: map<string, SubAcc>, o: Obs): map<string, SubAcc>
  {
    var node := if o.subKey in subs then subs[o.subKey] else SubAcc(o.subcategory, Zero);
    subs[o.subKey := node.(counts := Add(node.counts, Contribution(o)))]
  }

  /** The category update of one row. */
  function AddToCategory(node: CatAcc, o: Obs): CatAcc
  {
    CatAcc(Add(node.counts, Contribution(o)),
           if o.subKey in node.subs then node.subOrder else node.subOrder + [o.subKey],
           AddToSub(node.subs, o))
  }

  /** One iteration of the accumulation loop. */
  function Step(tree: Tree, o: Obs): Tree
  {
    var node := if o.category in tree.cats then tree.cats[o.category] else EmptyCategory;
    Tree(Add(tree.root, Contribution(o)),
         if o.category in tree.cats then tree.catOrder else tree.catOrder + [o.category],
         tree.cats[o.category := AddToCategory(node, o)])
  }

  /** The tree after the accumulation loop has seen `obs`. */
  function TreeOf(obs: seq<Obs>): Tree
  {
    if obs == [] then Tree(Zero, [], map[]) else Step(TreeOf(obs[..|obs| - 1]), obs[|obs| - 1])
  }

  /** The accumulation loop of lines 144-184. */
  method Accumulate(obs: seq<Obs>) returns (tree: Tree)
    ensures tree == TreeOf(obs)
  {
    var root := Zero;
    var catOrder: seq<string> := [];
    var cats: map<string, CatAcc> := map[];
    for i := 0 to |obs|
      invariant Tree(root, catOrder, cats) == TreeOf(obs[..i])
    {
      assert obs[..i + 1][..i] == obs[..i];
      root, catOrder, cats := AddObs(root, catOrder, cats, obs[i]);
    }
    tree := Tree(root, catOrder, cats);
    assert obs[..|obs|] == obs;
  }

  /** One pass of the accumulation loop: the root, the row's category node
      (created on first sight) and its subcategory node (likewise) each get
      the row's counters. */
  method AddObs(root: Counts, catOrder: seq<string>, cats: map<string, CatAcc>, o: Obs)
    returns (root': Counts, catOrder': seq<string>, cats': map<string, CatAcc>)
    ensures Tree(root', catOrder', cats') == Step(Tree(root, catOrder, cats), o)
  {
    root' := Add(root, Contribution(o));
    catOrder', cats' := catOrder, cats;
    if o.category !in cats' {
      cats' := cats'[o.category := EmptyCategory];
      catOrder' := catOrder' + [o.category];
    }
    var catNode := cats'[o.category];
    ghost var base := catNode;
    catNode := catNode.(counts := Add(catNode.counts, Contribution(o)));
    if o.subKey !in catNode.subs {
      catNode := catNode.(subOrder := catNode.subOrder + [o.subKey],
                          subs := catNode.subs[o.subKey := SubAcc(o.subcategory, Zero)]);
    }
    var subNode := catNode.subs[o.subKey];
    subNode := subNode.(counts := Add(subNode.counts, Contribution(o)));
    if o.subKey !in base.subs {
      UpdateTwice(base.subs, o.subKey, SubAcc(o.subcategory, Zero), subNode);
    }
    catNode := catNode.(subs := catNode.subs[o.subKey := subNode]);
    assert catNode == AddToCategory(base, o);
    if o.category !in cats {
      UpdateTwice(cats, o.category, EmptyCategory, catNode);
    }
    cats' := cats'[o.category := catNode];
  }

  /** A subcategory node agrees with its rows. */
  ghost predicate SubMatches(node: SubAcc, w: seq<Obs>)
  {
    w != [] && node.subcategory == w[0].subcategory && node.counts == Total(w)
  }

  /** A category node agrees with its rows. */
  ghost predicate CategoryMatches(node: CatAcc, w: seq<Obs>)
  {
    && node.counts == Total(w)
    && node.subOrder == FirstSeen(KeysOf(w, SubKeyOf))
    && (forall s :: s in node.subs <==> s in node.subOrder)
    && forall s :: s in node.subs ==> SubMatches(node.subs[s], Where(w, SubKeyOf, s))
  }

  /** The tree agrees with the rows it has seen. */
  ghost predicate Matches(tree: Tree, obs: seq<Obs>)
  {
    && tree.root == Total(obs)
    && tree.catOrder == FirstSeen(KeysOf(obs, CategoryOf))
    && (forall c :: c in tree.cats <==> c in tree.catOrder)
    && forall c :: c in tree.cats ==> CategoryMatches(tree.cats[c], Where(obs, CategoryOf, c))
  }

  /** One row keeps a category node in agreement with its rows. */
  lemma CategoryStep(node: CatAcc, w: seq<Obs>, o: Obs)
    requires CategoryMatches(node, w)
    ensures CategoryMatches(AddToCategory(node, o), w + [o])
  {
    var next := AddToCategory(node, o);
    TotalSnoc(w, o);
    KeysSnoc(w, o, SubKeyOf);
    FirstSeenSnoc(KeysOf(w, SubKeyOf), o.subKey);
    forall s | s in next.subs ensures SubMatches(next.subs[s], Where(w + [o], SubKeyOf, s)) {
      WhereSnoc(w, o, SubKeyOf, s);
      if s == o.subKey {
        if s in node.subs {
          TotalSnoc(Where(w, SubKeyOf, s), o);
        } else {
          WhereAbsent(w, SubKeyOf, s);
          TotalSnoc([], o);
        }
      }
    }
  }

  /** One row keeps the tree in agreement with its rows. */
  lemma StepMatches(tree: Tree, obs: seq<Obs>, o: Obs)
    requires Matches(tree, obs)
    ensures Matches(Step(tree, o), obs + [o])
  {
    var next := Step(tree, o);
    TotalSnoc(obs, o);
    KeysSnoc(obs, o, CategoryOf);
    FirstSeenSnoc(KeysOf(obs, CategoryOf), o.category);
    forall c | c in next.cats ensures CategoryMatches(next.cats[c], Where(obs + [o], CategoryOf, c)) {
      WhereSnoc(obs, o, CategoryOf, c);
      if c == o.category {
        if c in tree.cats {
          CategoryStep(tree.cats[c], Where(obs, CategoryOf, c), o);
        } else {
          WhereAbsent(obs, CategoryOf, c);
          CategoryStep(EmptyCategory, [], o);
        }
      }
    }
  }

  /** The accumulated tree agrees with all the rows. */
  lemma {:induction false} TreeOfMatches(obs: seq<Obs>)
    ensures Matches(TreeOf(obs), obs)
  {
    if obs != [] {
      var n := |obs| - 1;
      assert obs == obs[..n] + [obs[n]];
      TreeOfMatches(obs[..n]);
      StepMatches(TreeOf(obs[..n]), obs[..n], obs[n]);
    }
  }

  /** Every row the accumulation loop sees: a positive weight and a
      subcategory key that is `subcategory or ""`. */
  ghost predicate ValidObs(obs: seq<Obs>)
  {
    forall i :: 0 <= i < |obs| ==> obs[i].weight >= 0.0 && obs[i].subKey == SubKey(obs[i].subcategory)
  }

  lemma ObservationsValid(rows: seq<ImpressionRow>, halfLife: real, strptime: string -> Option<real>,
                          exp: real -> real)
    requires rows != [] && IsExp(exp)
    ensures ValidObs(Observations(rows, halfLife, strptime, exp))
  {
    ObservationWeights(rows, halfLife, strptime, exp);
  }

  /** The rows a key selects carry that key and come from the input. */
  lemma {:induction false} WhereFacts<K>(obs: seq<Obs>, key: Obs -> K, k: K)
    ensures forall i :: 0 <= i < |Where(obs, key, k)| ==>
      key(Where(obs, key, k)[i]) == k && Where(obs, key, k)[i] in obs
  {
    if obs != [] {
      var n := |obs| - 1;
      var q := obs[..n];
      WhereFacts(q, key, k);
      var p := Where(q, key, k);
      var w := Where(obs, key, k);
      assert w == if key(obs[n]) == k then p + [obs[n]] else p;
      forall i | 0 <= i < |w| ensures key(w[i]) == k && w[i] in obs {
        if i < |p| {
          assert w[i] == p[i];
          assert p[i] in q;
          assert forall o :: o in q ==> o in obs;
        }
      }
    }
  }

  lemma WhereValid<K>(obs: seq<Obs>, key: Obs -> K, k: K)
    requires ValidObs(obs)
    ensures ValidObs(Where(obs, key, k))
  {
    WhereFacts(obs, key, k);
  }

  // ---------------------------------------------------------------------
  // Sums and bounds over the tree

  /** Clicks within exposures, interest weight within exposure weight. */
  predicate Bounded(c: Counts)
  {
    0 <= c.clicks <= c.exposures && 0.0 <= c.interestWeight <= c.exposureWeight
  }

  ghost predicate CategorySound(node: CatAcc)
  {
    && Bounded(node.counts)
    && (forall s :: s in node.subOrder ==> s in node.subs)
    && forall s :: s in node.subs ==> Bounded(node.subs[s].counts) && SubKey(node.subs[s].subcategory) == s
  }

  /** The shape every accumulated tree has: its orders list its keys, and
      every node is bounded. */
  ghost predicate Sound(tree: Tree)
  {
    && Bounded(tree.root)
    && (forall c :: c in tree.catOrder ==> c in tree.cats)
    && forall c :: c in tree.cats ==> CategorySound(tree.cats[c])
  }

  /** A category node that agrees with valid rows is sound. */
  lemma CategoryNodeSound(node: CatAcc, w: seq<Obs>)
    requires CategoryMatches(node, w) && ValidObs(w)
    ensures CategorySound(node)
  {
    TotalBounds(w);
    forall s | s in node.subs
      ensures Bounded(node.subs[s].counts) && SubKey(node.subs[s].subcategory) == s
    {
      var ws := Where(w, SubKeyOf, s);
      WhereValid(w, SubKeyOf, s);
      WhereFacts(w, SubKeyOf, s);
      TotalBounds(ws);
    }
  }

  /** With valid rows, every node of the tree is bounded: clicks never
      exceed exposures and interest never exceeds exposure weight. */
  lemma TreeSound(obs: seq<Obs>)
    requires ValidObs(obs)
    ensures Sound(TreeOf(obs))
  {
    var tree := TreeOf(obs);
    TreeOfMatches(obs);
    TotalBounds(obs);
    forall c | c in tree.cats ensures CategorySound(tree.cats[c]) {
      WhereValid(obs, CategoryOf, c);
      CategoryNodeSound(tree.cats[c], Where(obs, CategoryOf, c));
    }
  }

  /** The counters of the listed categories, added up. */
  function SumCategories(tree: Tree, cs: seq<string>): Counts
    requires forall c :: c in cs ==> c in tree.cats
  {
    if cs == [] then Zero
    else Add(SumCategories(tree, cs[..|cs| - 1]), tree.cats[cs[|cs| - 1]].counts)
  }

  /** The counters of the listed subcategories of one category, added up. */
  function SumSubcategories(node: CatAcc, ks: seq<string>): Counts
    requires forall s :: s in ks ==> s in node.subs
  {
    if ks == [] then Zero
    else Add(SumSubcategories(node, ks[..|ks| - 1]), node.subs[ks[|ks| - 1]].counts)
  }

  lemma {:induction false} SumCategoriesGroups(tree: Tree, obs: seq<Obs>, cs: seq<string>)
    requires Matches(tree, obs) && forall c :: c in cs ==> c in tree.cats
    ensures SumCategories(tree, cs) == SumWhere(obs, CategoryOf, cs)
  {
    if cs != [] {
      SumCategoriesGroups(tree, obs, cs[..|cs| - 1]);
    }
  }

  lemma {:induction false} SumSubcategoriesGroups(node: CatAcc, w: seq<Obs>, ks: seq<string>)
    requires CategoryMatches(node, w) && forall s :: s in ks ==> s in node.subs
    ensures SumSubcategories(node, ks) == SumWhere(w, SubKeyOf, ks)
  {
    if ks != [] {
      SumSubcategoriesGroups(node, w, ks[..|ks| - 1]);
    }
  }

  /** The root counters are the sum of the category counters (lines 148-168). */
  lemma RootIsSumOfCategories(obs: seq<Obs>)
    ensures var tree := TreeOf(obs);
      (forall c :: c in tree.catOrder ==> c in tree.cats)
      && SumCategories(tree, tree.catOrder) == tree.root
  {
    var tree := TreeOf(obs);
    TreeOfMatches(obs);
    SumCategoriesGroups(tree, obs, tree.catOrder);
    PartitionTotal(obs, CategoryOf);
  }

  /** Each category's counters are the sum of its subcategory counters
      (lines 163-184). */
  lemma CategoryIsSumOfSubcategories(obs: seq<Obs>, c: string)
    requires c in TreeOf(obs).cats
    ensures var node := TreeOf(obs).cats[c];
      (forall s :: s in node.subOrder ==> s in node.subs)
      && SumSubcategories(node, node.subOrder) == node.counts
  {
    TreeOfMatches(obs);
    var w := Where(obs, CategoryOf, c);
    var node := TreeOf(obs).cats[c];
    SumSubcategoriesGroups(node, w, node.subOrder);
    PartitionTotal(w, SubKeyOf);
  }

  /** The root counts every row as an exposure and every clicked row as a
      click. */
  lemma RootCounts(obs: seq<Obs>)
    ensures TreeOf(obs).root.exposures == |obs|
    ensures TreeOf(obs).root.clicks == |Where(obs, ClickedOf, true)|
  {
    TreeOfMatches(obs);
    TotalCounts(obs);
  }

  // ---------------------------------------------------------------------
  // Finalising, flattening and ranking

  /** A node with its `ctr` and `underexplored_score`. */
  datatype FinalNode = FinalNode(counts: Counts, ctr: real, underexploredScore: real)

  /** `finalize_node`. */
  function Finalize(c: Counts): (n: FinalNode)
    requires c.exposureWeight >= 0.0
    ensures n.counts == c
    ensures c.exposures == 0 ==> n.ctr == 0.0
    ensures c.exposures != 0 ==> n.ctr * c.exposures as real == c.clicks as real
    ensures n.underexploredScore * (c.exposureWeight + Epsilon) == c.interestWeight
    ensures Bounded(c) ==> 0.0 <= n.ctr <= 1.0 && 0.0 <= n.underexploredScore < 1.0
  {
    var ctr := if c.exposures != 0 then c.clicks as real / c.exposures as real else 0.0;
    var score := c.interestWeight / (c.exposureWeight + Epsilon);
    FinalNode(c, ctr, score)
  }

  datatype SubcategoryNode = SubcategoryNode(subcategory: Option<string>, node: FinalNode)
  datatype CategoryNode = CategoryNode(category: string, node: FinalNode, subcategories: seq<SubcategoryNode>)

  /** A row of `user_top_nodes`. */
  datatype FlatNode = FlatNode(path: string, category: string, subcategory: Option<string>,
                               counts: Counts, underexploredScore: real)

  /** The ToP document: the finalised root, the ranked categories and the
      twenty most underexplored paths. */
  datatype Top = Top(userId: string, halfLifeDays: real, root: FinalNode,
                     categories: seq<CategoryNode>, underexploredPaths: seq<string>)

  function SubScore(n: SubcategoryNode): real { n.node.underexploredScore }
  function CategoryScore(n: CategoryNode): real { n.node.underexploredScore }
  function FlatScore(n: FlatNode): real { n.underexploredScore }

  /** The flattened node of a non-empty subcategory key. */
  function FlatOfSub(c: string, s: string, sub: SubAcc): FlatNode
    requires sub.counts.exposureWeight >= 0.0
  {
    FlatNode(c + "/" + s, c, sub.subcategory, sub.counts, Finalize(sub.counts).underexploredScore)
  }

  /** The flattened node of a category. */
  function FlatOfCategory(c: string, node: CatAcc): FlatNode
    requires node.counts.exposureWeight >= 0.0
  {
    FlatNode(c, c, None, node.counts, Finalize(node.counts).underexploredScore)
  }

  /** A flattened node is either a category's node (no subcategory, the
      category as path) or the node of a non-empty subcategory (path
      `"category/subcategory"`), with that node's counters and score. */
  ghost predicate FlatOk(tree: Tree, n: FlatNode)
    requires Sound(tree)
  {
    && n.category in tree.cats
    && n.counts.exposureWeight >= 0.0
    && n.underexploredScore == Finalize(n.counts).underexploredScore
    && if n.subcategory.None? then
         n.path == n.category && n.counts == tree.cats[n.category].counts
       else
         var s := n.subcategory.value;
         && s != "" && s in tree.cats[n.category].subs
         && n.path == n.category + "/" + s && n.counts == tree.cats[n.category].subs[s].counts
  }

  /** The flattened nodes of the listed subcategory keys, empty keys skipped. */
  function SubFlats(tree: Tree, c: string, ks: seq<string>): (r: seq<FlatNode>)
    requires Sound(tree) && c in tree.cats && forall s :: s in ks ==> s in tree.cats[c].subs
    ensures |r| <= |ks|
  {
    if ks == [] then []
    else
      var n := |ks| - 1;
      var r := SubFlats(tree, c, ks[..n]);
      assert forall s :: s in ks[..n] ==> s in ks;
      if ks[n] == "" then r else r + [FlatOfSub(c, ks[n], tree.cats[c].subs[ks[n]])]
  }

  /** The subcategory nodes of a category are well formed, and every
      non-empty listed key has one. */
  lemma {:induction false} SubFlatsShape(tree: Tree, c: string, ks: seq<string>)
    requires Sound(tree) && c in tree.cats && forall s :: s in ks ==> s in tree.cats[c].subs
    ensures var r := SubFlats(tree, c, ks);
      && (forall i :: 0 <= i < |r| ==> FlatOk(tree, r[i]) && r[i].category == c)
      && forall s :: s in ks && s != "" ==> FlatOfSub(c, s, tree.cats[c].subs[s]) in r
  {
    if ks != [] {
      var n := |ks| - 1;
      assert forall s :: s in ks ==> s in ks[..n] || s == ks[n];
      SubFlatsShape(tree, c, ks[..n]);
      if ks[n] != "" {
        var sub := tree.cats[c].subs[ks[n]];
        assert SubKey(sub.subcategory) == ks[n];
        assert FlatOk(tree, FlatOfSub(c, ks[n], sub));
      }
    }
  }

  /** The subcategory nodes first, then the category node (lines 198-235). */
  function CategoryFlats(tree: Tree, c: string): seq<FlatNode>
    requires Sound(tree) && c in tree.cats
  {
    SubFlats(tree, c, tree.cats[c].subOrder) + [FlatOfCategory(c, tree.cats[c])]
  }

  /** `flattened_nodes` for the listed categories. */
  function Flattened(tree: Tree, cs: seq<string>): seq<FlatNode>
    requires Sound(tree) && forall c :: c in cs ==> c in tree.cats
  {
    if cs == [] then []
    else
      var n := |cs| - 1;
      assert forall c :: c in cs[..n] ==> c in cs;
      Flattened(tree, cs[..n]) + CategoryFlats(tree, cs[n])
  }

  /** The flattened list holds one node per category and one per non-empty
      subcategory key, and nothing else. */
  lemma {:induction false} FlattenedShape(tree: Tree, cs: seq<string>)
    requires Sound(tree) && forall c :: c in cs ==> c in tree.cats
    ensures var r := Flattened(tree, cs);
      && (forall i :: 0 <= i < |r| ==> FlatOk(tree, r[i]) && r[i].category in cs)
      && (forall c :: c in cs ==> FlatOfCategory(c, tree.cats[c]) in r)
      && forall c, s :: c in cs && s in tree.cats[c].subOrder && s != "" ==>
           FlatOfSub(c, s, tree.cats[c].subs[s]) in r
  {
    if cs != [] {
      var n := |cs| - 1;
      assert forall c :: c in cs ==> c in cs[..n] || c == cs[n];
      FlattenedShape(tree, cs[..n]);
      SubFlatsShape(tree, cs[n], tree.cats[cs[n]].subOrder);
      var f := CategoryFlats(tree, cs[n]);
      assert FlatOk(tree, FlatOfCategory(cs[n], tree.cats[cs[n]]));
      assert forall i :: 0 <= i < |f| ==> FlatOk(tree, f[i]) && f[i].category == cs[n];
    }
  }

  /** The subcategory nodes of one category, in key order. */
  function SubNodes(node: CatAcc, ks: seq<string>): (r: seq<SubcategoryNode>)
    requires CategorySound(node) && forall s :: s in ks ==> s in node.subs
    ensures |r| == |ks|
  {
    if ks == [] then []
    else
      var n := |ks| - 1;
      var sub := node.subs[ks[n]];
      SubNodes(node, ks[..n]) + [SubcategoryNode(sub.subcategory, Finalize(sub.counts))]
  }

  /** A finalised category with its subcategories ranked by underexplored
      score. */
  function CategoryNodeOf(tree: Tree, c: string): (r: CategoryNode)
    requires Sound(tree) && c in tree.cats
    ensures |r.subcategories| == |tree.cats[c].subOrder|
    ensures forall i, j :: 0 <= i < j < |r.subcategories| ==>
              SubScore(r.subcategories[i]) >= SubScore(r.subcategories[j])
  {
    var node := tree.cats[c];
    CategoryNode(c, Finalize(node.counts), Sorting.SortByKeyDesc(SubNodes(node, node.subOrder), SubScore))
  }

  /** `categories_list` before ranking. */
  function CategoryNodes(tree: Tree, cs: seq<string>): (r: seq<CategoryNode>)
    requires Sound(tree) && forall c :: c in cs ==> c in tree.cats
    ensures |r| == |cs|
  {
    if cs == [] then [] else CategoryNodes(tree, cs[..|cs| - 1]) + [CategoryNodeOf(tree, cs[|cs| - 1])]
  }

  function PathsOf(nodes: seq<FlatNode>): (paths: seq<string>)
    ensures |paths| == |nodes| && forall i :: 0 <= i < |nodes| ==> paths[i] == nodes[i].path
  {
    seq(|nodes|, i requires 0 <= i < |nodes| => nodes[i].path)
  }

  /** The flattened nodes ranked by underexplored score. */
  function RankedFlat(tree: Tree): (r: seq<FlatNode>)
    requires Sound(tree)
    ensures |r| == |Flattened(tree, tree.catOrder)|
    ensures forall n :: n in r <==> n in Flattened(tree, tree.catOrder)
    ensures forall i, j :: 0 <= i < j < |r| ==> r[i].underexploredScore >= r[j].underexploredScore
  {
    Sorting.SortByKeyDesc(Flattened(tree, tree.catOrder), FlatScore)
  }

  /** The ToP document of a tree (lines 193-253): the categories ranked by
      underexplored score, and at most twenty paths, the highest scores
      first. */
  function Assemble(tree: Tree, userId: string, halfLife: real): (top: Top)
    requires Sound(tree)
    ensures top.root == Finalize(tree.root)
    ensures |top.categories| == |tree.catOrder|
    ensures forall n :: n in top.categories <==> n in CategoryNodes(tree, tree.catOrder)
    ensures forall i, j :: 0 <= i < j < |top.categories| ==>
              CategoryScore(top.categories[i]) >= CategoryScore(top.categories[j])
    ensures |top.underexploredPaths| == MinInt(MaxPaths, |Flattened(tree, tree.catOrder)|)
    ensures forall i :: 0 <= i < |top.underexploredPaths| ==> top.underexploredPaths[i] == RankedFlat(tree)[i].path
  {
    var ranked := RankedFlat(tree);
    Top(userId, halfLife, Finalize(tree.root),
        Sorting.SortByKeyDesc(CategoryNodes(tree, tree.catOrder), CategoryScore),
        PathsOf(Take(ranked, MaxPaths)))
  }

  /** The inner loop of lines 200-218 for one category, then the category's
      own node (lines 224-235). */
  method FlattenCategory(tree: Tree, c: string, before: seq<FlatNode>)
    returns (flattened: seq<FlatNode>, subcategoriesList: seq<SubcategoryNode>)
    requires Sound(tree) && c in tree.cats
    ensures flattened == before + CategoryFlats(tree, c)
    ensures subcategoriesList == SubNodes(tree.cats[c], tree.cats[c].subOrder)
  {
    var node := tree.cats[c];
    flattened, subcategoriesList := before, [];
    for j := 0 to |node.subOrder|
      invariant subcategoriesList == SubNodes(node, node.subOrder[..j])
      invariant flattened == before + SubFlats(tree, c, node.subOrder[..j])
    {
      var s := node.subOrder[j];
      var sub := node.subs[s];
      assert node.subOrder[..j + 1][..j] == node.subOrder[..j];
      subcategoriesList := subcategoriesList + [SubcategoryNode(sub.subcategory, Finalize(sub.counts))];
      if s != "" {
        flattened := flattened + [FlatOfSub(c, s, sub)];
      }
    }
    assert node.subOrder[..|node.subOrder|] == node.subOrder;
    flattened := flattened + [FlatOfCategory(c, node)];
  }

  lemma FlattenedSnoc(tree: Tree, cs: seq<string>, c: string)
    requires Sound(tree) && c in tree.cats && forall x :: x in cs ==> x in tree.cats
    ensures Flattened(tree, cs + [c]) == Flattened(tree, cs) + CategoryFlats(tree, c)
    ensures CategoryNodes(tree, cs + [c]) == CategoryNodes(tree, cs) + [CategoryNodeOf(tree, c)]
  {
    assert (cs + [c])[..|cs|] == cs;
  }

  /** The flattening loop of lines 195-235. */
  method FlattenTree(tree: Tree) returns (flattened: seq<FlatNode>, categoriesList: seq<CategoryNode>)
    requires Sound(tree)
    ensures flattened == Flattened(tree, tree.catOrder)
    ensures categoriesList == CategoryNodes(tree, tree.catOrder)
  {
    flattened, categoriesList := [], [];
    for i := 0 to |tree.catOrder|
      invariant flattened == Flattened(tree, tree.catOrder[..i])
      invariant categoriesList == CategoryNodes(tree, tree.catOrder[..i])
    {
      var c := tree.catOrder[i];
      var node := tree.cats[c];
      assert tree.catOrder[..i + 1] == tree.catOrder[..i] + [c];
      FlattenedSnoc(tree, tree.catOrder[..i], c);
      var subcategoriesList;
      flattened, subcategoriesList := FlattenCategory(tree, c, flattened);
      categoriesList := categoriesList
        + [CategoryNode(c, Finalize(node.counts), Sorting.SortByKeyDesc(subcategoriesList, SubScore))];
    }
    assert tree.catOrder[..|tree.catOrder|] == tree.catOrder;
  }

  /** `compute_top`: the ToP document and the flattened nodes of one user.
      Without rows the root is all zeros and there is nothing else. */
  method ComputeTop(userId: string, rows: seq<ImpressionRow>, halfLife: real,
                    strptime: string -> Option<real>, exp: real -> real)
    returns (top: Top, flattened: seq<FlatNode>)
    requires IsExp(exp)
    ensures rows == [] ==>
      top == Top(userId, halfLife, FinalNode(Zero, 0.0, 0.0), [], []) && flattened == []
    ensures rows != [] ==>
      var tree := TreeOf(Observations(rows, halfLife, strptime, exp));
      && Sound(tree)
      && top == Assemble(tree, userId, halfLife)
      && flattened == Flattened(tree, tree.catOrder)
  {
    if rows == [] {
      return Top(userId, halfLife, FinalNode(Zero, 0.0, 0.0), [], []), [];
    }
    var obs := Observations(rows, halfLife, strptime, exp);
    ObservationsValid(rows, halfLife, strptime, exp);
    TreeSound(obs);
    var tree := Accumulate(obs);
    var categoriesList;
    flattened, categoriesList := FlattenTree(tree);
    top := Top(userId, halfLife, Finalize(tree.root),
               Sorting.SortByKeyDesc(categoriesList, CategoryScore),
               PathsOf(Take(Sorting.SortByKeyDesc(flattened, FlatScore), MaxPaths)));
  }
}
