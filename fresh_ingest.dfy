// Fresh-content ingestion (apps/backend/app/services/fresh_ingest.py): text
// normalisation, URL query cleaning, ids from URL hashes, keyword category
// mapping, the deduplicating upsert into the items table, the quality report
// of a fetch, and the incremental interest-profile update with its watermark.
module FreshIngest {
  import opened Wrappers
  import opened Lists
  import Text
  import Numeric
  import Sorting
  import FeedTypes

  // ---------------------------------------------------------------------------
  // Text, URLs and ids

  /** `_normalize_text`: `None` and `""` give `""`, anything else has its
      whitespace runs collapsed to single spaces and its ends trimmed. */
  function NormalizeText(value: Option<string>): (r: string)
    ensures !FeedTypes.Truthy(value) ==> r == ""
    ensures r == [] || (!Text.IsSpace(r[0]) && !Text.IsSpace(r[|r| - 1]))
  {
    if !FeedTypes.Truthy(value) then "" else Text.Normalize(value.value)
  }

  /** Normalised text holds only single spaces between words, and
      normalising it again changes nothing. */
  lemma NormalizeTextShape(value: Option<string>)
    ensures var r := NormalizeText(value);
      Text.SingleSpaced(r) && NormalizeText(Some(r)) == r
  {
    NormalizeTextSpaces(value);
    NormalizeTextFixed(value);
  }

  /** The whitespace half of `NormalizeTextShape`. */
  lemma NormalizeTextSpaces(value: Option<string>)
    ensures Text.SingleSpaced(NormalizeText(value))
  {
    if FeedTypes.Truthy(value) {
      Text.NormalizeShape(value.value);
    }
  }

  /** The fixed-point half of `NormalizeTextShape`. */
  lemma NormalizeTextFixed(value: Option<string>)
    ensures NormalizeText(Some(NormalizeText(value))) == NormalizeText(value)
  {
    var r := NormalizeText(value);
    if r == "" {
      assert !FeedTypes.Truthy(Some(r));
    } else {
      assert FeedTypes.Truthy(value) && r == Text.Normalize(value.value);
      Text.NormalizeShape(value.value);
      assert NormalizeText(Some(r)) == Text.Normalize(r);
    }
  }

  /** A URL after `urlparse`, with its query already split by `parse_qsl`
      (blank values kept). */
  datatype Url = Url(scheme: string, netloc: string, path: string, params: string,
                     query: seq<(string, string)>, fragment: string)

  /** A query key `_canonicalize_url` drops: `utm_*` in any letter case,
      `ref` or `fbclid`. */
  predicate IsTracking(key: string)
  {
    var k := Text.Lower(key);
    Text.StartsWith(k, "utm_") || k == "ref" || k == "fbclid"
  }

  /** The query pairs whose key is not a tracking key, in order. */
  function KeptPairs(query: seq<(string, string)>): (r: seq<(string, string)>)
    ensures |r| <= |query|
    ensures forall p :: p in r <==> p in query && !IsTracking(p.0)
  {
    if query == [] then []
    else
      var n := |query| - 1;
      var r := KeptPairs(query[..n]);
      assert forall p :: p in query <==> p in query[..n] || p == query[n];
      if IsTracking(query[n].0) then r else r + [query[n]]
  }

  /** Filtering a query piece by piece is filtering it whole: the order of the
      kept pairs is the order they had. */
  lemma {:induction false} KeptPairsAppend(a: seq<(string, string)>, b: seq<(string, string)>)
    ensures KeptPairs(a + b) == KeptPairs(a) + KeptPairs(b)
  {
    if b != [] {
      var n := |b| - 1;
      assert (a + b)[..|a| + n] == a + b[..n];
      assert (a + b)[|a| + n] == b[n];
      KeptPairsAppend(a, b[..n]);
    } else {
      assert a + b == a;
    }
  }

  /** `_canonicalize_url` on the parsed URL: the fragment is cleared and the
      tracking pairs are removed from the query. */
  function Canonicalize(u: Url): (r: Url)
    ensures r.fragment == ""
    ensures (r.scheme, r.netloc, r.path, r.params) == (u.scheme, u.netloc, u.path, u.params)
    ensures forall p :: p in r.query <==> p in u.query && !IsTracking(p.0)
  {
    u.(query := KeptPairs(u.query), fragment := "")
  }

  /** Cleaning a clean URL changes nothing. */
  lemma {:induction false} CanonicalizeIdempotent(u: Url)
    ensures Canonicalize(Canonicalize(u)) == Canonicalize(u)
  {
    KeptPairsTwice(u.query);
  }

  lemma {:induction false} KeptPairsTwice(q: seq<(string, string)>)
    ensures KeptPairs(KeptPairs(q)) == KeptPairs(q)
  {
    if q != [] {
      var n := |q| - 1;
      KeptPairsTwice(q[..n]);
      if !IsTracking(q[n].0) {
        KeptPairsAppend(KeptPairs(q[..n]), [q[n]]);
        assert KeptPairs([q[n]]) == KeptPairs([]) + [q[n]] by {
          assert ([] + [q[n]])[..0] == [];
        }
      }
    }
  }

  /** `_news_id_from_hash`: `"FRESH_"` and the first twelve characters of
      the hash (all of it when it is shorter). */
  function NewsIdFromHash(urlHash: string): (r: string)
    ensures Text.StartsWith(r, "FRESH_")
    ensures |r| == 6 + Numeric.MinInt(12, |urlHash|)
    ensures r[6..] == urlHash[..|r| - 6]
  {
    "FRESH_" + Take(urlHash, 12)
  }

  /** Two hashes give the same news id exactly when their first twelve
      characters agree. */
  lemma NewsIdCollision(h1: string, h2: string)
    requires |h1| >= 12 && |h2| >= 12
    ensures NewsIdFromHash(h1) == NewsIdFromHash(h2) <==> h1[..12] == h2[..12]
  {
    if NewsIdFromHash(h1) == NewsIdFromHash(h2) {
      assert NewsIdFromHash(h1)[6..] == NewsIdFromHash(h2)[6..];
    }
  }

  // ---------------------------------------------------------------------------
  // Category mapping

  /** A keyword and the (category, subcategory) it maps to. */
  datatype Rule = Rule(keyword: string, category: string, subcategory: string)

  /** The rules matched against the lowercased tags (lines 61-95). */
  const TagRules: seq<Rule> := [
    Rule("politic", "news", "newspolitics"),
    Rule("election", "news", "newspolitics"),
    Rule("government", "news", "newspolitics"),
    Rule("business", "finance", "financeeconomy"),
    Rule("economy", "finance", "financeeconomy"),
    Rule("finance", "finance", "financeeconomy"),
    Rule("market", "finance", "financeeconomy"),
    Rule("stock", "finance", "financeeconomy"),
    Rule("sport", "sports", "sportsnews"),
    Rule("football", "sports", "football_nfl"),
    Rule("soccer", "sports", "soccer"),
    Rule("basketball", "sports", "basketball_nba"),
    Rule("baseball", "sports", "baseball_mlb"),
    Rule("tennis", "sports", "tennis"),
    Rule("cricket", "sports", "cricket"),
    Rule("tech", "news", "tech"),
    Rule("technology", "news", "tech"),
    Rule("ai", "news", "tech"),
    Rule("science", "news", "science"),
    Rule("health", "health", "health"),
    Rule("medicine", "health", "health"),
    Rule("covid", "health", "health"),
    Rule("travel", "travel", "travel"),
    Rule("food", "foodanddrink", "foodanddrink"),
    Rule("recipe", "foodanddrink", "foodanddrink"),
    Rule("entertainment", "entertainment", "entertainment-celebrity"),
    Rule("celebrity", "entertainment", "entertainment-celebrity"),
    Rule("movie", "entertainment", "entertainment-celebrity"),
    Rule("tv", "tv", "tv-celebrity"),
    Rule("music", "music", "musicnews"),
    Rule("world", "news", "newsworld"),
    Rule("us", "news", "newsus"),
    Rule("opinion", "news", "newsopinion")
  ]

  /** The rules matched against the lowercased title, description and tags
      (lines 100-153). */
  const TextRules: seq<Rule> := [
    Rule("politic", "news", "newspolitics"),
    Rule("election", "news", "newspolitics"),
    Rule("government", "news", "newspolitics"),
    Rule("white house", "news", "newspolitics"),
    Rule("congress", "news", "newspolitics"),
    Rule("parliament", "news", "newspolitics"),
    Rule("business", "finance", "financeeconomy"),
    Rule("economy", "finance", "financeeconomy"),
    Rule("market", "finance", "financeeconomy"),
    Rule("finance", "finance", "financeeconomy"),
    Rule("stock", "finance", "financeeconomy"),
    Rule("inflation", "finance", "financeeconomy"),
    Rule("bank", "finance", "financeeconomy"),
    Rule("crypto", "finance", "financeeconomy"),
    Rule("sport", "sports", "sportsnews"),
    Rule("football", "sports", "football_nfl"),
    Rule("soccer", "sports", "soccer"),
    Rule("basketball", "sports", "basketball_nba"),
    Rule("baseball", "sports", "baseball_mlb"),
    Rule("tennis", "sports", "tennis"),
    Rule("cricket", "sports", "cricket"),
    Rule("tech", "news", "tech"),
    Rule("technology", "news", "tech"),
    Rule("ai", "news", "tech"),
    Rule("cyber", "news", "tech"),
    Rule("startup", "news", "tech"),
    Rule("health", "health", "health"),
    Rule("medicine", "health", "health"),
    Rule("hospital", "health", "health"),
    Rule("vaccine", "health", "health"),
    Rule("travel", "travel", "travel"),
    Rule("flight", "travel", "travel"),
    Rule("food", "foodanddrink", "foodanddrink"),
    Rule("recipe", "foodanddrink", "foodanddrink"),
    Rule("restaurant", "foodanddrink", "foodanddrink"),
    Rule("entertainment", "entertainment", "entertainment-celebrity"),
    Rule("celebrity", "entertainment", "entertainment-celebrity"),
    Rule("movie", "entertainment", "entertainment-celebrity"),
    Rule("film", "entertainment", "entertainment-celebrity"),
    Rule("tv", "tv", "tv-celebrity"),
    Rule("music", "music", "musicnews"),
    Rule("science", "news", "science"),
    Rule("climate", "news", "science"),
    Rule("space", "news", "science"),
    Rule("world", "news", "newsworld"),
    Rule("europe", "news", "newsworld"),
    Rule("asia", "news", "newsworld"),
    Rule("africa", "news", "newsworld"),
    Rule("america", "news", "newsus"),
    Rule("us ", "news", "newsus"),
    Rule("u.s.", "news", "newsus"),
    Rule("opinion", "news", "newsopinion")
  ]

  /** The index of the first rule whose keyword occurs in `text`. */
  function FirstMatch(rules: seq<Rule>, text: string): (r: Option<nat>)
    ensures r.None? <==> forall i :: 0 <= i < |rules| ==> !Text.Contains(text, rules[i].keyword)
    ensures r.Some? ==> (r.value < |rules| && Text.Contains(text, rules[r.value].keyword)
      && forall j :: 0 <= j < r.value ==> !Text.Contains(text, rules[j].keyword))
  {
    if rules == [] then None
    else if Text.Contains(text, rules[0].keyword) then Some(0)
    else
      var r := FirstMatch(rules[1..], text);
      assert forall i :: 1 <= i < |rules| ==> rules[i] == rules[1..][i - 1];
      if r.Some? then Some(r.value + 1) else None
  }

  /** The mapping a matched rule, or the unknown pair, stands for. */
  function MappedBy(rules: seq<Rule>, m: Option<nat>): (string, string)
    requires m.Some? ==> m.value < |rules|
  {
    if m.Some? then (rules[m.value].category, rules[m.value].subcategory) else ("unknown", "unknown")
  }

  /** The text `_map_category` searches: title, description and the
      space-joined tags, lowercased. */
  function SearchText(title: string, description: string, tags: seq<string>): string
  {
    Text.Lower(title + " " + description + " " + Text.Join(tags, " "))
  }

  /** `_map_category`. The first tag rule found in the tags wins; the text
      rules are tried only when no tag rule matches, and the first of them
      found in the text wins; with no match at all the pair is unknown. */
  function MapCategory(title: string, description: string, tags: seq<string>): (r: (string, string))
    ensures var tm := FirstMatch(TagRules, Text.Lower(Text.Join(tags, " ")));
      var xm := FirstMatch(TextRules, SearchText(title, description, tags));
      (tm.Some? ==> r == MappedBy(TagRules, tm))
      && (tm.None? && xm.Some? ==> r == MappedBy(TextRules, xm))
      && (tm.None? && xm.None? ==> r == ("unknown", "unknown"))
  {
    var tm := FirstMatch(TagRules, Text.Lower(Text.Join(tags, " ")));
    if tm.Some? then MappedBy(TagRules, tm)
    else MappedBy(TextRules, FirstMatch(TextRules, SearchText(title, description, tags)))
  }

  /** Every keyword is non-empty, so no tag rule matches an item without
      tags, and the mapping comes from the title and description alone. */
  lemma NoTagsUsesText(title: string, description: string)
    ensures MapCategory(title, description, [])
         == MappedBy(TextRules, FirstMatch(TextRules, SearchText(title, description, [])))
  {
    assert Text.Join([], " ") == "";
    assert Text.Lower("") == "";
    forall i | 0 <= i < |TagRules|
      ensures !Text.Contains("", TagRules[i].keyword)
    {
      assert |TagRules[i].keyword| > 0;
    }
  }

  /** Once a tag rule matches, the title and description play no part. */
  lemma TagRuleDecides(t1: string, d1: string, t2: string, d2: string, tags: seq<string>)
    requires FirstMatch(TagRules, Text.Lower(Text.Join(tags, " "))).Some?
    ensures MapCategory(t1, d1, tags) == MapCategory(t2, d2, tags)
  {
  }

  // ---------------------------------------------------------------------------
  // Upsert into the items table

  /** `FreshItem`; times are seconds on one clock. */
  datatype FreshItem = FreshItem(newsId: string, url: string, urlHash: string,
                                 publishedAt: Option<real>, source: string, title: string,
                                 description: string, category: string, subcategory: string)

  /** A row of the items table, keyed by its URL hash. */
  datatype StoredItem = StoredItem(newsId: string, title: string, abstractText: string, url: string,
                                   category: string, subcategory: string, contentType: string,
                                   source: string, publishedAt: Option<real>, isFresh: bool)

  /** The non-empty URL hashes of the items, in order. */
  function Hashes(items: seq<FreshItem>): (hs: seq<string>)
    ensures forall h :: h in hs <==> h != "" && exists i :: 0 <= i < |items| && items[i].urlHash == h
  {
    if items == [] then []
    else
      var n := |items| - 1;
      var p := Hashes(items[..n]);
      assert forall i :: 0 <= i < n ==> items[..n][i] == items[i];
      if items[n].urlHash != "" then p + [items[n].urlHash] else p
  }

  lemma HashesSnoc(items: seq<FreshItem>, it: FreshItem)
    ensures Hashes(items + [it]) == if it.urlHash != "" then Hashes(items) + [it.urlHash] else Hashes(items)
  {
    assert (items + [it])[..|items|] == items;
  }

  /** The last item carrying URL hash `h`. */
  function LastWith(items: seq<FreshItem>, h: string): (r: Option<FreshItem>)
    ensures r.None? <==> forall i :: 0 <= i < |items| ==> items[i].urlHash != h
    ensures r.Some? ==> r.value.urlHash == h
  {
    if items == [] then None
    else
      var n := |items| - 1;
      assert forall i :: 0 <= i < n ==> items[..n][i] == items[i];
      if items[n].urlHash == h then Some(items[n]) else LastWith(items[..n], h)
  }

  /** The item found is the one at the last index carrying `h`. */
  lemma {:induction false} LastWithAt(items: seq<FreshItem>, h: string, i: nat)
    requires i < |items| && items[i].urlHash == h
    requires forall j :: i < j < |items| ==> items[j].urlHash != h
    ensures LastWith(items, h) == Some(items[i])
  {
    var n := |items| - 1;
    if i < n {
      var p := items[..n];
      assert p[i] == items[i];
      assert forall j :: i < j < n ==> p[j] == items[j];
      LastWithAt(p, h, i);
    }
  }

  lemma LastWithSnoc(items: seq<FreshItem>, it: FreshItem, h: string)
    ensures LastWith(items + [it], h) == if it.urlHash == h then Some(it) else LastWith(items, h)
  {
    assert (items + [it])[..|items|] == items;
  }

  /** The distinct non-empty hashes in first-seen order: the key order of
      the `deduped` dict. */
  function DedupOrder(items: seq<FreshItem>): (r: seq<string>)
    ensures DistinctSeq(r)
    ensures forall h :: h in r <==> h in Hashes(items)
  {
    FirstSeen(Hashes(items))
  }

  /** Every hash of the key order names some item. */
  lemma OrderHasLast(items: seq<FreshItem>)
    ensures var order := DedupOrder(items);
      forall i :: 0 <= i < |order| ==> LastWith(items, order[i]).Some?
  {
    var order := DedupOrder(items);
    forall i | 0 <= i < |order|
      ensures LastWith(items, order[i]).Some?
    {
      assert order[i] in Hashes(items);
      var j :| 0 <= j < |items| && items[j].urlHash == order[i];
    }
  }

  /** `list(deduped.values())`: one item per distinct non-empty hash, the last
      one given, in the order the hashes were first seen. */
  function Deduped(items: seq<FreshItem>): (r: seq<FreshItem>)
    ensures |r| == |DedupOrder(items)|
    ensures forall i :: 0 <= i < |r| ==>
      r[i].urlHash == DedupOrder(items)[i] && Some(r[i]) == LastWith(items, r[i].urlHash)
  {
    var order := DedupOrder(items);
    OrderHasLast(items);
    var r := seq(|order|, i requires 0 <= i < |order| => LastWith(items, order[i]).value);
    assert forall i :: 0 <= i < |r| ==> Some(r[i]) == LastWith(items, order[i]);
    r
  }

  /** The row the upsert leaves for `it`: a new row, or on a hash conflict the
      stored row with every column but the news id replaced. */
  function StoredOf(table: map<string, StoredItem>, it: FreshItem): (r: StoredItem)
    ensures it.urlHash in table ==> r.newsId == table[it.urlHash].newsId
    ensures it.urlHash !in table ==> r.newsId == it.newsId
    ensures r.title == it.title && r.abstractText == it.description && r.url == it.url
    ensures r.source == it.source && r.publishedAt == it.publishedAt
    ensures r.contentType == "fresh" && r.isFresh
    ensures r.category == if it.category == "" then "unknown" else it.category
    ensures r.subcategory == if it.subcategory == "" then "unknown" else it.subcategory
  {
    var newsId := if it.urlHash in table then table[it.urlHash].newsId else it.newsId;
    StoredItem(newsId, it.title, it.description, it.url,
               if it.category == "" then "unknown" else it.category,
               if it.subcategory == "" then "unknown" else it.subcategory,
               "fresh", it.source, it.publishedAt, true)
  }

  /** The items table after `INSERT ... ON CONFLICT (url_hash) DO UPDATE` of
      the given items, one after the other. */
  function Upserted(table: map<string, StoredItem>, items: seq<FreshItem>): map<string, StoredItem>
  {
    if items == [] then table
    else
      var n := |items| - 1;
      var t := Upserted(table, items[..n]);
      t[items[n].urlHash := StoredOf(t, items[n])]
  }

  /** The URL hashes of the items, empty ones included. */
  function UrlHashes(items: seq<FreshItem>): (hs: seq<string>)
    ensures |hs| == |items| && forall i :: 0 <= i < |items| ==> hs[i] == items[i].urlHash
  {
    seq(|items|, i requires 0 <= i < |items| => items[i].urlHash)
  }

  /** Upserting items with distinct hashes touches exactly their keys and
      leaves each one with the row built from its item and the original
      table; every other row stays. */
  lemma {:induction false} UpsertedRows(table: map<string, StoredItem>, items: seq<FreshItem>)
    requires DistinctSeq(UrlHashes(items))
    ensures var t := Upserted(table, items);
      (forall h :: h in t <==> h in table || h in UrlHashes(items))
      && (forall i :: 0 <= i < |items| ==> t[items[i].urlHash] == StoredOf(table, items[i]))
      && (forall h :: h in table && h !in UrlHashes(items) ==> t[h] == table[h])
  {
    if items != [] {
      var n := |items| - 1;
      var p, last := items[..n], items[n];
      assert UrlHashes(items) == UrlHashes(p) + [last.urlHash];
      assert DistinctSeq(UrlHashes(p));
      assert last.urlHash !in UrlHashes(p);
      UpsertedRows(table, p);
      var t := Upserted(table, p);
      assert last.urlHash in t <==> last.urlHash in table;
      assert StoredOf(t, last) == StoredOf(table, last);
      var u := Upserted(table, items);
      assert u == t[last.urlHash := StoredOf(t, last)];
      forall i | 0 <= i < |items|
        ensures u[items[i].urlHash] == StoredOf(table, items[i])
      {
        if i < n {
          assert p[i] == items[i];
          assert UrlHashes(items)[i] != UrlHashes(items)[n];
        }
      }
    }
  }

  /** How many of the hashes are not yet stored. */
  function CountNew(hashes: seq<string>, existing: set<string>): (n: nat)
    ensures n <= |hashes|
  {
    if hashes == [] then 0
    else CountNew(hashes[..|hashes| - 1], existing) + if hashes[|hashes| - 1] in existing then 0 else 1
  }

  /** On distinct hashes the count is the size of the set of new ones. */
  lemma {:induction false} CountNewCard(hashes: seq<string>, existing: set<string>)
    requires DistinctSeq(hashes)
    ensures CountNew(hashes, existing) == |Elems(hashes) - existing|
  {
    if hashes != [] {
      var k := |hashes| - 1;
      var p, x := hashes[..k], hashes[k];
      DistinctInit(hashes);
      CountNewCard(p, existing);
      var a := Elems(p);
      if x in existing {
        assert Elems(hashes) - existing == a - existing;
      } else {
        assert Elems(hashes) - existing == (a - existing) + {x};
      }
    }
  }


  /** The set of distinct non-empty hashes a batch carries. */
  function HashSet(items: seq<FreshItem>): set<string>
  {
    set h | h in Hashes(items)
  }

  /** The `(inserted, updated)` pair `upsert_fresh_items` returns, given the
      hashes already stored: `(0, 0)` on an empty batch; otherwise the new
      distinct hashes and the already-stored ones, which together are all
      the distinct non-empty hashes. */
  function UpsertCounts(items: seq<FreshItem>, existing: set<string>): (r: (nat, nat))
    ensures items == [] ==> r == (0, 0)
    ensures r.0 + r.1 == |HashSet(items)|
    ensures r.0 == |HashSet(items) - existing|
    ensures r.1 == |HashSet(items) * existing|
  {
    var order := DedupOrder(items);
    DistinctCard(order);
    CountNewCard(order, existing);
    assert Elems(order) == HashSet(items);
    var inserted := CountNew(order, existing);
    var hs := HashSet(items);
    assert hs == (hs - existing) + (hs * existing);
    assert (hs - existing) * (hs * existing) == {};
    (inserted, |order| - inserted)
  }

  /** The items table. */
  class ItemsTable {
    var rows: map<string, StoredItem>

    constructor(rows0: map<string, StoredItem>)
      ensures rows == rows0
    {
      rows := rows0;
    }

    /** `upsert_fresh_items`: dedup by URL hash with the last item winning and
        empty hashes dropped, one conflict-updating insert of the survivors,
        and the inserted/updated counts. */
    method UpsertFreshItems(items: seq<FreshItem>) returns (inserted: nat, updated: nat)
      modifies this
      ensures (inserted, updated) == UpsertCounts(items, old(rows).Keys)
      ensures items == [] ==> rows == old(rows)
      ensures items != [] ==> rows == Upserted(old(rows), Deduped(items))
    {
      if items == [] {
        return 0, 0;
      }
      var order, values := DedupedList(items);
      inserted, updated := SplitCounts(items, order, rows.Keys);
      rows := Upserted(rows, values);
    }
  }

  /** `_existing_hashes` on the surviving hashes, then the new ones counted
      as inserted and the rest as updated. */
  method SplitCounts(items: seq<FreshItem>, order: seq<string>, stored: set<string>) returns (inserted: nat, updated: nat)
    requires order == DedupOrder(items)
    ensures (inserted, updated) == UpsertCounts(items, stored)
  {
    var existing := Elems(order) * stored;
    CountsOfOrder(items, order, stored, existing);
    inserted := CountNew(order, existing);
    updated := |order| - inserted;
  }

  /** Counting the new hashes of the dedup order against the stored hashes
      it meets gives the `(inserted, updated)` pair. */
  lemma CountsOfOrder(items: seq<FreshItem>, order: seq<string>, stored: set<string>, existing: set<string>)
    requires order == DedupOrder(items)
    requires existing == Elems(order) * stored
    ensures CountNew(order, existing) <= |order|
    ensures (CountNew(order, existing), |order| - CountNew(order, existing)) == UpsertCounts(items, stored)
  {
    CountNewAgree(order, existing, stored);
    assert UpsertCounts(items, stored) == (CountNew(order, stored), |order| - CountNew(order, stored));
  }

  /** Only the membership of the hashes themselves matters; at most every
      hash is new. */
  lemma {:induction false} CountNewAgree(hashes: seq<string>, a: set<string>, b: set<string>)
    requires forall h :: h in hashes ==> (h in a <==> h in b)
    ensures CountNew(hashes, a) == CountNew(hashes, b) <= |hashes|
  {
    if hashes != [] {
      var k := |hashes| - 1;
      assert forall h :: h in hashes[..k] ==> h in hashes;
      CountNewAgree(hashes[..k], a, b);
    }
  }

  /** `list(deduped.values())` next to the dict's key order. */
  method DedupedList(items: seq<FreshItem>) returns (order: seq<string>, values: seq<FreshItem>)
    ensures order == DedupOrder(items)
    ensures values == Deduped(items)
  {
    var deduped;
    order, deduped := DedupByHash(items);
    values := seq(|order|, k requires 0 <= k < |order| => deduped[order[k]]);
    DedupedValues(items, order, deduped, values);
  }

  /** The dict's values in key order are `Deduped(items)`. */
  lemma DedupedValues(items: seq<FreshItem>, order: seq<string>, deduped: map<string, FreshItem>,
                      values: seq<FreshItem>)
    requires order == DedupOrder(items)
    requires forall h :: h in deduped <==> h in order
    requires forall h :: h in deduped ==> LastWith(items, h) == Some(deduped[h])
    requires |values| == |order| && forall k :: 0 <= k < |order| ==> values[k] == deduped[order[k]]
    ensures values == Deduped(items)
  {
    var d := Deduped(items);
    forall k | 0 <= k < |order|
      ensures values[k] == d[k]
    {
      assert Some(d[k]) == LastWith(items, order[k]);
    }
  }

  /** The loop of lines 239-241: the `deduped` dict, as its key order and its
      contents. */
  method DedupByHash(items: seq<FreshItem>) returns (order: seq<string>, deduped: map<string, FreshItem>)
    ensures order == DedupOrder(items)
    ensures forall h :: h in deduped <==> h in order
    ensures forall h :: h in deduped ==> LastWith(items, h) == Some(deduped[h])
  {
      deduped := map[];
      order := [];
      for i := 0 to |items|
        invariant order == FirstSeen(Hashes(items[..i]))
        invariant forall h :: h in deduped <==> h in order
        invariant forall h :: h in deduped ==> LastWith(items[..i], h) == Some(deduped[h])
      {
        var it := items[i];
        ghost var order0, deduped0 := order, deduped;
        if it.urlHash != "" {
          if it.urlHash !in deduped {
            order := order + [it.urlHash];
          }
          deduped := deduped[it.urlHash := it];
        }
        DedupStep(items, i, order0, deduped0, order, deduped);
      }
      assert items[..|items|] == items;
  }

  /** One pass of the dedup loop keeps its invariants. */
  lemma DedupStep(items: seq<FreshItem>, i: nat, order: seq<string>, deduped: map<string, FreshItem>,
                  order': seq<string>, deduped': map<string, FreshItem>)
    requires i < |items|
    requires order == FirstSeen(Hashes(items[..i]))
    requires forall h :: h in deduped <==> h in order
    requires forall h :: h in deduped ==> LastWith(items[..i], h) == Some(deduped[h])
    requires var h := items[i].urlHash;
      order' == (if h != "" && h !in deduped then order + [h] else order)
      && deduped' == (if h != "" then deduped[h := items[i]] else deduped)
    ensures order' == FirstSeen(Hashes(items[..i + 1]))
    ensures forall h :: h in deduped' <==> h in order'
    ensures forall h :: h in deduped' ==> LastWith(items[..i + 1], h) == Some(deduped'[h])
  {
    DedupOrderStep(items, i, order, order');
    assert "" !in Hashes(items[..i]);
    DedupMapStep(items, i, deduped, deduped');
  }

  lemma DedupOrderStep(items: seq<FreshItem>, i: nat, order: seq<string>, order': seq<string>)
    requires i < |items| && order == FirstSeen(Hashes(items[..i]))
    requires var h := items[i].urlHash; order' == (if h != "" && h !in order then order + [h] else order)
    ensures order' == FirstSeen(Hashes(items[..i + 1]))
  {
    var it := items[i];
    assert items[..i + 1] == items[..i] + [it];
    HashesSnoc(items[..i], it);
    if it.urlHash != "" {
      FirstSeenSnoc(Hashes(items[..i]), it.urlHash);
    }
  }

  lemma DedupMapStep(items: seq<FreshItem>, i: nat, deduped: map<string, FreshItem>, deduped': map<string, FreshItem>)
    requires i < |items|
    requires "" !in deduped
    requires forall h :: h in deduped ==> LastWith(items[..i], h) == Some(deduped[h])
    requires var h := items[i].urlHash; deduped' == (if h != "" then deduped[h := items[i]] else deduped)
    ensures forall h :: h in deduped' ==> LastWith(items[..i + 1], h) == Some(deduped'[h])
  {
    var it := items[i];
    assert items[..i + 1] == items[..i] + [it];
    forall h | h in deduped'
      ensures LastWith(items[..i + 1], h) == Some(deduped'[h])
    {
      LastWithSnoc(items[..i], it, h);
    }
  }

  // ---------------------------------------------------------------------------
  // Quality report

  /** The counters `_compute_quality` runs over a batch. */
  datatype Tallies = Tallies(missingTitle: nat, missingAbstract: nat, unknownCategory: nat,
                             unknownSubcategory: nat, titleLen: nat, abstractLen: nat,
                             withPublished: nat, last24h: nat, last7d: nat,
                             sources: map<string, nat>)

  /** Hours between a publication time and `now`, both in seconds. */
  function AgeHours(now: real, publishedAt: real): real
  {
    (now - publishedAt) / 3600.0
  }

  /** The counters after one more item. */
  function TallyStep(t: Tallies, it: FreshItem, now: real): Tallies
  {
    var title := NormalizeText(Some(it.title));
    var abstractText := NormalizeText(Some(it.description));
    var published := it.publishedAt.Some?;
    var age := if published then AgeHours(now, it.publishedAt.value) else 0.0;
    Tallies(
      t.missingTitle + (if title == "" then 1 else 0),
      t.missingAbstract + (if abstractText == "" then 1 else 0),
      t.unknownCategory + (if it.category in {"", "unknown"} then 1 else 0),
      t.unknownSubcategory + (if it.subcategory in {"", "unknown"} then 1 else 0),
      t.titleLen + |title|,
      t.abstractLen + |abstractText|,
      t.withPublished + (if published then 1 else 0),
      t.last24h + (if published && age <= 24.0 then 1 else 0),
      t.last7d + (if published && age <= 168.0 then 1 else 0),
      if it.source != "" then
        t.sources[it.source := (if it.source in t.sources then t.sources[it.source] else 0) + 1]
      else t.sources)
  }

  const NoTallies := Tallies(0, 0, 0, 0, 0, 0, 0, 0, 0, map[])

  /** The counters over a batch. */
  function TallyOf(items: seq<FreshItem>, now: real): Tallies
  {
    if items == [] then NoTallies
    else TallyStep(TallyOf(items[..|items| - 1], now), items[|items| - 1], now)
  }

  /** The non-empty sources of a batch, in order. */
  function Sources(items: seq<FreshItem>): (r: seq<string>)
    ensures |r| <= |items|
  {
    if items == [] then []
    else
      var n := |items| - 1;
      var p := Sources(items[..n]);
      if items[n].source != "" then p + [items[n].source] else p
  }

  /** No counter exceeds the batch size; items published in the last day
      were also published in the last week; each source is counted for
      exactly the items it names. */
  lemma {:induction false} TallyBounds(items: seq<FreshItem>, now: real)
    ensures var t := TallyOf(items, now);
      t.missingTitle <= |items| && t.missingAbstract <= |items|
      && t.unknownCategory <= |items| && t.unknownSubcategory <= |items|
      && t.last24h <= t.last7d <= t.withPublished <= |items|
      && (forall s :: s in t.sources <==> s in Sources(items))
      && (forall s :: s in t.sources ==> t.sources[s] == Count(Sources(items), s))
  {
    if items != [] {
      var n := |items| - 1;
      var p := items[..n];
      TallyBounds(p, now);
      var t := TallyOf(p, now);
      var it := items[n];
      assert Sources(items) == if it.source != "" then Sources(p) + [it.source] else Sources(p);
      forall s | s in TallyOf(items, now).sources
        ensures TallyOf(items, now).sources[s] == Count(Sources(items), s)
      {
        if it.source != "" {
          CountSnoc(Sources(p), it.source, s);
        }
      }
    }
  }

  /** The sources' counts add up to at most the batch size. */
  lemma SourcesTotal(items: seq<FreshItem>, now: real)
    ensures var t := TallyOf(items, now);
      var ks := FirstSeen(Sources(items));
      (forall i :: 0 <= i < |ks| ==> ks[i] in t.sources)
      && CountAll(Sources(items), ks) == |Sources(items)| <= |items|
  {
    TallyBounds(items, now);
    CountPartition(Sources(items));
  }

  /** The quality report of a batch. */
  datatype Quality = Quality(totalItems: nat, dedupedItems: nat, duplicatesDropped: nat,
                             missingTitlePct: real, missingAbstractPct: real,
                             unknownCategoryPct: real, unknownSubcategoryPct: real,
                             avgTitleLen: real, avgAbstractLen: real, withPublishedAtPct: real,
                             publishedLast24hPct: real, publishedLast7dPct: real,
                             sources: map<string, nat>)

  /** The report `_compute_quality` builds from the batch and its counters. */
  function QualityOf(items: seq<FreshItem>, dedupedCount: nat, now: real): Quality
  {
    if items == [] then Quality(0, 0, 0, 0.0, 0.0, 0.0, 0.0, 0.0, 0.0, 0.0, 0.0, 0.0, map[])
    else Report(|items|, dedupedCount, TallyOf(items, now))
  }

  /** The report of a non-empty batch of `total` items with counters `t`. */
  function Report(total: nat, dedupedCount: nat, t: Tallies): Quality
    requires total > 0
  {
    var dropped := if total - dedupedCount > 0 then total - dedupedCount else 0;
    var n := total as real;
    Quality(total, dedupedCount, dropped,
            t.missingTitle as real / n, t.missingAbstract as real / n,
            t.unknownCategory as real / n, t.unknownSubcategory as real / n,
            t.titleLen as real / n, t.abstractLen as real / n,
            t.withPublished as real / n, t.last24h as real / n, t.last7d as real / n,
            t.sources)
  }

  lemma FractionBound(k: nat, m: nat, n: nat)
    requires 0 < n && k <= m <= n
    ensures 0.0 <= k as real / n as real <= m as real / n as real <= 1.0
  {
    var d := n as real;
    var y := m as real / d;
    Numeric.QuotientWithin(m as real, d, 0.0, 1.0);
    assert y * d == m as real;
    Numeric.QuotientWithin(k as real, d, 0.0, y);
  }


  /** An empty batch reports zeros; otherwise every percentage lies in [0,1],
      the day share is at most the week share, which is at most the share
      with a publication time, and the dropped duplicates are
      `max(0, total − deduped)`. */
  lemma QualityBounds(items: seq<FreshItem>, dedupedCount: nat, now: real)
    ensures var q := QualityOf(items, dedupedCount, now);
      q.totalItems == |items|
      && q.duplicatesDropped == Numeric.MaxInt(0, |items| - dedupedCount)
      && (items == [] ==> q == Quality(0, 0, 0, 0.0, 0.0, 0.0, 0.0, 0.0, 0.0, 0.0, 0.0, 0.0, map[]))
      && 0.0 <= q.missingTitlePct <= 1.0 && 0.0 <= q.missingAbstractPct <= 1.0
      && 0.0 <= q.unknownCategoryPct <= 1.0 && 0.0 <= q.unknownSubcategoryPct <= 1.0
      && 0.0 <= q.publishedLast24hPct <= q.publishedLast7dPct <= q.withPublishedAtPct <= 1.0
      && 0.0 <= q.avgTitleLen && 0.0 <= q.avgAbstractLen
  {
    if items != [] {
      TallyBounds(items, now);
      ReportBounds(|items|, dedupedCount, TallyOf(items, now));
    }
  }

  lemma ReportBounds(n: nat, dedupedCount: nat, t: Tallies)
    requires n > 0
    requires t.missingTitle <= n && t.missingAbstract <= n
    requires t.unknownCategory <= n && t.unknownSubcategory <= n
    requires t.last24h <= t.last7d <= t.withPublished <= n
    ensures var q := Report(n, dedupedCount, t);
      0.0 <= q.missingTitlePct <= 1.0 && 0.0 <= q.missingAbstractPct <= 1.0
      && 0.0 <= q.unknownCategoryPct <= 1.0 && 0.0 <= q.unknownSubcategoryPct <= 1.0
      && 0.0 <= q.publishedLast24hPct <= q.publishedLast7dPct <= q.withPublishedAtPct <= 1.0
      && 0.0 <= q.avgTitleLen && 0.0 <= q.avgAbstractLen
  {
    FractionBound(t.missingTitle, n, n);
    FractionBound(t.missingAbstract, n, n);
    FractionBound(t.unknownCategory, n, n);
    FractionBound(t.unknownSubcategory, n, n);
    FractionBound(t.last24h, t.last7d, n);
    FractionBound(t.last7d, t.withPublished, n);
    FractionBound(t.withPublished, n, n);
    QuotientNonNegative(t.titleLen, n);
    QuotientNonNegative(t.abstractLen, n);
  }

  lemma QuotientNonNegative(k: nat, n: nat)
    requires n > 0
    ensures k as real / n as real >= 0.0
  {
    assert (k as real / n as real) * n as real == k as real;
  }

  /** `_compute_quality`: one pass over the batch updating the counters,
      then the report. */
  method ComputeQuality(items: seq<FreshItem>, dedupedCount: nat, now: real) returns (q: Quality)
    ensures q == QualityOf(items, dedupedCount, now)
  {
    var total := |items|;
    if total == 0 {
      return Quality(0, 0, 0, 0.0, 0.0, 0.0, 0.0, 0.0, 0.0, 0.0, 0.0, 0.0, map[]);
    }
    var t := NoTallies;
    for i := 0 to |items|
      invariant t == TallyOf(items[..i], now)
    {
      assert items[..i + 1][..i] == items[..i];
      t := TallyStep(t, items[i], now);
    }
    assert items[..|items|] == items;
    q := Report(total, dedupedCount, t);
  }

  // ---------------------------------------------------------------------------
  // Incremental interest profile

  /** The `1e-6` that keeps the underexplored scores finite. */
  const Epsilon: real := 0.000001

  /** How many paths a profile keeps. */
  const MaxPaths: nat := 20

  /** One row of the per-user query: a (category, subcategory) group of the
      user's impressions and clicks since the window start. */
  datatype GroupRow = GroupRow(category: Option<string>, subcategory: Option<string>,
                               exposures: nat, clicks: nat)

  /** `x or "unknown"`. */
  function OrUnknown(o: Option<string>): (r: string)
    ensures r != ""
    ensures FeedTypes.Truthy(o) ==> r == o.value
  {
    if FeedTypes.Truthy(o) then o.value else "unknown"
  }

  function CategoryOf(r: GroupRow): string { OrUnknown(r.category) }
  function SubcategoryOf(r: GroupRow): string { OrUnknown(r.subcategory) }

  /** A group's underexplored score: 0 without exposures, otherwise clicks
      over exposures (plus the epsilon); below 1 whenever the clicks do not
      exceed the exposures. */
  function SubScore(exposures: nat, clicks: nat): (r: real)
    ensures exposures == 0 ==> r == 0.0
    ensures exposures > 0 ==> r * (exposures as real + Epsilon) == clicks as real
    ensures 0.0 <= r
    ensures clicks <= exposures ==> r < 1.0
  {
    if exposures > 0 then
      ScoreFacts(exposures, clicks);
      clicks as real / (exposures as real + Epsilon)
    else 0.0
  }

  lemma ScoreFacts(e: nat, c: nat)
    requires e > 0
    ensures var r := c as real / (e as real + Epsilon);
      r * (e as real + Epsilon) == c as real && 0.0 <= r && (c <= e ==> r < 1.0)
  {
    var d := e as real + Epsilon;
    var r := c as real / d;
    assert r * d == c as real;
    assert (1.0 - r) * d == d - c as real;
  }

  /** A subcategory entry of a category. */
  datatype SubEntry = SubEntry(subcategory: string, exposures: nat, clicks: nat,
                               interestWeight: real, exposureWeight: real, underexploredScore: real)

  /** A row of `user_top_nodes`. */
  datatype TopNode = TopNode(path: string, category: string, subcategory: Option<string>,
                             exposures: nat, clicks: nat, interestWeight: real,
                             exposureWeight: real, underexploredScore: real)

  /** A category while the rows are folded in. Its interest and exposure
      weights are always its clicks and exposures, so they are not kept
      apart. */
  datatype CatAcc = CatAcc(exposures: nat, clicks: nat, subcategories: seq<SubEntry>)

  /** A finished category of the profile. */
  datatype CatEntry = CatEntry(category: string, exposures: nat, clicks: nat,
                               interestWeight: real, exposureWeight: real, ctr: real,
                               underexploredScore: real, subcategories: seq<SubEntry>)

  datatype RootEntry = RootEntry(exposures: nat, clicks: nat, ctr: real, interestWeight: real,
                                 exposureWeight: real, underexploredScore: real,
                                 categories: seq<CatEntry>)

  /** The `top_json` document stored for a user. */
  datatype LiveTop = LiveTop(userId: string, splitScope: string, generatedAt: real,
                             windowStart: real, windowHours: int, root: RootEntry,
                             underexploredPaths: seq<string>)

  function SubEntryScore(e: SubEntry): real { e.underexploredScore }
  function CatEntryScore(e: CatEntry): real { e.underexploredScore }
  function NodeScore(n: TopNode): real { n.underexploredScore }

  /** `f"{category}/{subcategory}" if subcategory else category` */
  function PathFor(category: string, subcategory: string): string
  {
    if subcategory != "" then category + "/" + subcategory else category
  }

  function SubEntryOf(r: GroupRow): SubEntry
  {
    SubEntry(SubcategoryOf(r), r.exposures, r.clicks, r.clicks as real, r.exposures as real,
             SubScore(r.exposures, r.clicks))
  }

  /** The node a row contributes. */
  function RowNode(r: GroupRow): TopNode
  {
    TopNode(PathFor(CategoryOf(r), SubcategoryOf(r)), CategoryOf(r), Some(SubcategoryOf(r)),
            r.exposures, r.clicks, r.clicks as real, r.exposures as real,
            SubScore(r.exposures, r.clicks))
  }

  const EmptyAcc := CatAcc(0, 0, [])

  /** A category after one more of its rows. */
  function AddRow(acc: CatAcc, r: GroupRow): CatAcc
  {
    CatAcc(acc.exposures + r.exposures, acc.clicks + r.clicks, acc.subcategories + [SubEntryOf(r)])
  }

  /** Category `c` after its rows among `rows`. */
  function AccOf(rows: seq<GroupRow>, c: string): CatAcc
  {
    if rows == [] then EmptyAcc
    else
      var n := |rows| - 1;
      var a := AccOf(rows[..n], c);
      if CategoryOf(rows[n]) == c then AddRow(a, rows[n]) else a
  }

  lemma AccOfSnoc(rows: seq<GroupRow>, r: GroupRow, c: string)
    ensures AccOf(rows + [r], c) == if CategoryOf(r) == c then AddRow(AccOf(rows, c), r) else AccOf(rows, c)
  {
    assert (rows + [r])[..|rows|] == rows;
  }

  /** The category of every row. */
  function CategoryKeys(rows: seq<GroupRow>): (ks: seq<string>)
    ensures |ks| == |rows|
  {
    seq(|rows|, i requires 0 <= i < |rows| => CategoryOf(rows[i]))
  }

  lemma CategoryKeysSnoc(rows: seq<GroupRow>, r: GroupRow)
    ensures CategoryKeys(rows + [r]) == CategoryKeys(rows) + [CategoryOf(r)]
  {
  }

  /** The key order of the `categories` dict. */
  function CategoryOrder(rows: seq<GroupRow>): (cs: seq<string>)
    ensures |cs| <= |rows|
    ensures DistinctSeq(cs)
    ensures forall c :: c in cs <==> c in CategoryKeys(rows)
  {
    var cs := FirstSeen(CategoryKeys(rows));
    DistinctCard(cs);
    assert Elems(cs) == Elems(CategoryKeys(rows));
    ElemsBound(CategoryKeys(rows));
    cs
  }


  /** A category without rows is empty. */
  lemma {:induction false} AccOfAbsent(rows: seq<GroupRow>, c: string)
    requires c !in CategoryKeys(rows)
    ensures AccOf(rows, c) == EmptyAcc
  {
    if rows != [] {
      var n := |rows| - 1;
      assert rows == rows[..n] + [rows[n]];
      CategoryKeysSnoc(rows[..n], rows[n]);
      AccOfAbsent(rows[..n], c);
    }
  }

  /** Each category holds one subcategory entry per row of that category,
      and its counts are at most the root's. */
  lemma {:induction false} AccOfShape(rows: seq<GroupRow>, c: string)
    ensures var a := AccOf(rows, c);
      |a.subcategories| == Count(CategoryKeys(rows), c)
      && a.clicks <= Total(rows, true) && a.exposures <= Total(rows, false)
  {
    if rows != [] {
      var n := |rows| - 1;
      AccOfShape(rows[..n], c);
      assert rows == rows[..n] + [rows[n]];
      CategoryKeysSnoc(rows[..n], rows[n]);
      CountSnoc(CategoryKeys(rows[..n]), CategoryOf(rows[n]), c);
    }
  }

  /** A row's clicks (`clicks`) or exposures (`!clicks`). */
  function RowMeasure(r: GroupRow, clicks: bool): nat
  {
    if clicks then r.clicks else r.exposures
  }

  /** A category's clicks or exposures. */
  function AccMeasure(a: CatAcc, clicks: bool): nat
  {
    if clicks then a.clicks else a.exposures
  }

  /** `sum(int(row[3] or 0) for row in rows)` for clicks,
      `sum(int(row[2] or 0) for row in rows)` for exposures. */
  function Total(rows: seq<GroupRow>, clicks: bool): nat
  {
    if rows == [] then 0 else Total(rows[..|rows| - 1], clicks) + RowMeasure(rows[|rows| - 1], clicks)
  }

  /** The clicks or exposures of the categories `cs`, added up. */
  function SumAccs(rows: seq<GroupRow>, cs: seq<string>, clicks: bool): nat
  {
    if cs == [] then 0
    else SumAccs(rows, cs[..|cs| - 1], clicks) + AccMeasure(AccOf(rows, cs[|cs| - 1]), clicks)
  }

  lemma {:induction false} SumAccsSnocAbsent(rows: seq<GroupRow>, r: GroupRow, cs: seq<string>, clicks: bool)
    requires CategoryOf(r) !in cs
    ensures SumAccs(rows + [r], cs, clicks) == SumAccs(rows, cs, clicks)
  {
    if cs != [] {
      var n := |cs| - 1;
      assert CategoryOf(r) !in cs[..n];
      SumAccsSnocAbsent(rows, r, cs[..n], clicks);
      AccOfSnoc(rows, r, cs[n]);
    }
  }

  lemma {:induction false} SumAccsAppend(rows: seq<GroupRow>, a: seq<string>, b: seq<string>, clicks: bool)
    ensures SumAccs(rows, a + b, clicks) == SumAccs(rows, a, clicks) + SumAccs(rows, b, clicks)
  {
    if b != [] {
      var n := |b| - 1;
      assert (a + b)[..|a| + n] == a + b[..n];
      SumAccsAppend(rows, a, b[..n], clicks);
    } else {
      assert a + b == a;
    }
  }

  /** A row whose category is listed once adds its count once. */
  lemma SumAccsSnocOnce(rows: seq<GroupRow>, r: GroupRow, a: seq<string>, b: seq<string>, clicks: bool)
    requires CategoryOf(r) !in a && CategoryOf(r) !in b
    ensures var c := CategoryOf(r);
      SumAccs(rows + [r], a + [c] + b, clicks) == SumAccs(rows, a + [c] + b, clicks) + RowMeasure(r, clicks)
  {
    var c := CategoryOf(r);
    SumAccsSnocAbsent(rows, r, a, clicks);
    SumAccsSnocAbsent(rows, r, b, clicks);
    SumAccsAppend(rows + [r], a + [c], b, clicks);
    SumAccsAppend(rows, a + [c], b, clicks);
    assert (a + [c])[..|a|] == a;
    AccOfSnoc(rows, r, c);
  }

  /** Grouping the rows by category and adding the categories up gives the
      root totals: every row lands in exactly one category. */
  lemma {:induction false} CategoriesPartitionRoot(rows: seq<GroupRow>, clicks: bool)
    ensures SumAccs(rows, CategoryOrder(rows), clicks) == Total(rows, clicks)
  {
    if rows != [] {
      var n := |rows| - 1;
      var p, r := rows[..n], rows[n];
      assert rows == p + [r];
      CategoriesPartitionRoot(p, clicks);
      CategoryKeysSnoc(p, r);
      assert CategoryOrder(rows) == FirstSeen(CategoryKeys(p) + [CategoryOf(r)]);
      assert Total(rows, clicks) == Total(p, clicks) + RowMeasure(r, clicks);
      PartitionStep(p, r, clicks);
    }
  }

  /** The category sums over the first-seen order grow by the new row. */
  lemma PartitionStep(p: seq<GroupRow>, r: GroupRow, clicks: bool)
    ensures SumAccs(p + [r], FirstSeen(CategoryKeys(p) + [CategoryOf(r)]), clicks)
      == SumAccs(p, FirstSeen(CategoryKeys(p)), clicks) + RowMeasure(r, clicks)
  {
    FirstSeenSnoc(CategoryKeys(p), CategoryOf(r));
    var f := FirstSeen(CategoryKeys(p));
    var c := CategoryOf(r);
    if c in f {
      var a, b := FirstSeenSplit(CategoryKeys(p), c);
      SumAccsSnocOnce(p, r, a, b, clicks);
    } else {
      assert (f + [c])[..|f|] == f;
      SumAccsSnocAbsent(p, r, f, clicks);
      AccOfSnoc(p, r, c);
      AccOfAbsent(p, c);
    }
  }

  /** A finished category (lines 683-691): its CTR, its underexplored score
      and its subcategories ranked by score. */
  function CatEntryOf(c: string, a: CatAcc): (e: CatEntry)
    ensures e.category == c && e.exposures == a.exposures && e.clicks == a.clicks
    ensures e.ctr == if a.exposures != 0 then a.clicks as real / a.exposures as real else 0.0
    ensures e.interestWeight == a.clicks as real && e.exposureWeight == a.exposures as real
    ensures e.underexploredScore * (a.exposures as real + Epsilon) == a.clicks as real
    ensures |e.subcategories| == |a.subcategories|
    ensures forall s :: s in e.subcategories <==> s in a.subcategories
    ensures forall i, j :: 0 <= i < j < |e.subcategories| ==>
      e.subcategories[i].underexploredScore >= e.subcategories[j].underexploredScore
  {
    var ranked := Sorting.SortByKeyDesc(a.subcategories, SubEntryScore);
    assert forall i :: 0 <= i < |ranked| ==> SubEntryScore(ranked[i]) == ranked[i].underexploredScore;
    CatEntry(c, a.exposures, a.clicks, a.clicks as real, a.exposures as real,
             if a.exposures != 0 then a.clicks as real / a.exposures as real else 0.0,
             a.clicks as real / (a.exposures as real + Epsilon), ranked)
  }

  /** The node of a category (lines 692-703). */
  function CatNode(c: string, a: CatAcc): TopNode
  {
    TopNode(c, c, None, a.exposures, a.clicks, a.clicks as real, a.exposures as real,
            a.clicks as real / (a.exposures as real + Epsilon))
  }

  function RowNodes(rows: seq<GroupRow>): (ns: seq<TopNode>)
    ensures |ns| == |rows| && forall i :: 0 <= i < |rows| ==> ns[i] == RowNode(rows[i])
  {
    seq(|rows|, i requires 0 <= i < |rows| => RowNode(rows[i]))
  }

  function CatNodes(rows: seq<GroupRow>, cs: seq<string>): (ns: seq<TopNode>)
    ensures |ns| == |cs| && forall i :: 0 <= i < |cs| ==> ns[i] == CatNode(cs[i], AccOf(rows, cs[i]))
  {
    seq(|cs|, i requires 0 <= i < |cs| => CatNode(cs[i], AccOf(rows, cs[i])))
  }

  function CatEntries(rows: seq<GroupRow>, cs: seq<string>): (es: seq<CatEntry>)
    ensures |es| == |cs| && forall i :: 0 <= i < |cs| ==> es[i] == CatEntryOf(cs[i], AccOf(rows, cs[i]))
  {
    seq(|cs|, i requires 0 <= i < |cs| => CatEntryOf(cs[i], AccOf(rows, cs[i])))
  }

  /** The `nodes` list: one node per row, then one per category in first-seen
      order. */
  function Nodes(rows: seq<GroupRow>): (ns: seq<TopNode>)
    ensures |ns| == |rows| + |CategoryOrder(rows)|
    ensures ns[..|rows|] == RowNodes(rows)
    ensures ns[|rows|..] == CatNodes(rows, CategoryOrder(rows))
  {
    RowNodes(rows) + CatNodes(rows, CategoryOrder(rows))
  }

  /** The root of the profile (lines 717-725). */
  function RootOf(rows: seq<GroupRow>): RootEntry
  {
    var e, c := Total(rows, false), Total(rows, true);
    RootEntry(e, c, if e != 0 then c as real / e as real else 0.0, c as real, e as real,
              if e != 0 then c as real / (e as real + Epsilon) else 0.0,
              Sorting.SortByKeyDesc(CatEntries(rows, CategoryOrder(rows)), CatEntryScore))
  }

  /** The paths of the twenty best-scored nodes, best first. */
  function PathsOf(nodes: seq<TopNode>): (ps: seq<string>)
    ensures |ps| == Numeric.MinInt(MaxPaths, |nodes|)
    ensures var ranked := Sorting.SortByKeyDesc(nodes, NodeScore);
      forall i :: 0 <= i < |ps| ==> ps[i] == ranked[i].path
  {
    var top := Take(Sorting.SortByKeyDesc(nodes, NodeScore), MaxPaths);
    seq(|top|, i requires 0 <= i < |top| => top[i].path)
  }

  /** The document `update_top_incremental` stores for a user with rows. */
  function LiveTopOf(userId: string, rows: seq<GroupRow>, now: real, start: real, windowHours: int): LiveTop
  {
    LiveTop(userId, "live_recent", now, start, windowHours, RootOf(rows), PathsOf(Nodes(rows)))
  }

  /** The profile's root counts every row and each category sums its own
      rows, so the categories add up to the root; the categories are ranked
      by score; there is one node per row and one per category, and at most
      twenty paths. */
  lemma LiveTopShape(userId: string, rows: seq<GroupRow>, now: real, start: real, windowHours: int)
    ensures var t := LiveTopOf(userId, rows, now, start, windowHours);
      t.root.exposures == Total(rows, false) && t.root.clicks == Total(rows, true)
      && SumAccs(rows, CategoryOrder(rows), false) == t.root.exposures
      && SumAccs(rows, CategoryOrder(rows), true) == t.root.clicks
      && |t.root.categories| == |CategoryOrder(rows)|
      && (forall i, j :: 0 <= i < j < |t.root.categories| ==>
            t.root.categories[i].underexploredScore >= t.root.categories[j].underexploredScore)
      && |Nodes(rows)| == |rows| + |CategoryOrder(rows)|
      && |t.underexploredPaths| == Numeric.MinInt(MaxPaths, |Nodes(rows)|) <= MaxPaths
      && (t.root.exposures == 0 ==> t.root.ctr == 0.0 && t.root.underexploredScore == 0.0)
  {
    CategoriesPartitionRoot(rows, false);
    CategoriesPartitionRoot(rows, true);
    var cats := Sorting.SortByKeyDesc(CatEntries(rows, CategoryOrder(rows)), CatEntryScore);
    assert forall i :: 0 <= i < |cats| ==> CatEntryScore(cats[i]) == cats[i].underexploredScore;
  }

  /** What the first loop has built after the rows `p`. */
  ghost predicate Folded(p: seq<GroupRow>, order: seq<string>, cats: map<string, CatAcc>, nodes: seq<TopNode>)
  {
    && order == FirstSeen(CategoryKeys(p))
    && (forall c :: c in cats <==> c in order)
    && (forall c :: c in cats ==> cats[c] == AccOf(p, c))
    && nodes == RowNodes(p)
  }

  /** One row folded in keeps `Folded`. */
  lemma FoldedStep(p: seq<GroupRow>, r: GroupRow, order: seq<string>, cats: map<string, CatAcc>, nodes: seq<TopNode>)
    requires Folded(p, order, cats, nodes)
    ensures var c := CategoryOf(r);
      var order' := if c in cats then order else order + [c];
      var base := if c in cats then cats[c] else EmptyAcc;
      Folded(p + [r], order', cats[c := AddRow(base, r)], nodes + [RowNode(r)])
  {
    var c := CategoryOf(r);
    var order' := if c in cats then order else order + [c];
    CategoryKeysSnoc(p, r);
    FirstSeenSnoc(CategoryKeys(p), c);
    assert order' == FirstSeen(CategoryKeys(p + [r]));
    FoldedAccStep(p, r, cats);
    RowNodesSnoc(p, r);
  }

  /** The category accumulators after one more row. */
  lemma FoldedAccStep(p: seq<GroupRow>, r: GroupRow, cats: map<string, CatAcc>)
    requires forall c :: c in cats <==> c in CategoryKeys(p)
    requires forall c :: c in cats ==> cats[c] == AccOf(p, c)
    ensures var c := CategoryOf(r);
      var cats' := cats[c := AddRow(if c in cats then cats[c] else EmptyAcc, r)];
      forall k :: k in cats' ==> cats'[k] == AccOf(p + [r], k)
  {
    var c := CategoryOf(r);
    if c !in cats {
      AccOfAbsent(p, c);
    }
    var cats' := cats[c := AddRow(if c in cats then cats[c] else EmptyAcc, r)];
    forall k | k in cats'
      ensures cats'[k] == AccOf(p + [r], k)
    {
      AccOfSnoc(p, r, k);
    }
  }

  lemma RowNodesSnoc(p: seq<GroupRow>, r: GroupRow)
    ensures RowNodes(p + [r]) == RowNodes(p) + [RowNode(r)]
  {
    var a, b := RowNodes(p + [r]), RowNodes(p) + [RowNode(r)];
    assert forall i :: 0 <= i < |a| ==> a[i] == b[i];
  }

  /** The first loop of `update_top_incremental` (lines 634-680): the
      `categories` dict in insertion order and the row nodes. */
  method FoldRows(rows: seq<GroupRow>) returns (order: seq<string>, cats: map<string, CatAcc>, nodes: seq<TopNode>)
    ensures order == CategoryOrder(rows)
    ensures forall c :: c in cats <==> c in order
    ensures forall c :: c in cats ==> cats[c] == AccOf(rows, c)
    ensures nodes == RowNodes(rows)
  {
    order, cats, nodes := [], map[], [];
    for i := 0 to |rows|
      invariant Folded(rows[..i], order, cats, nodes)
    {
      assert rows[..i + 1] == rows[..i] + [rows[i]];
      order, cats, nodes := FoldRow(rows[..i], rows[i], order, cats, nodes);
    }
    assert rows[..|rows|] == rows;
  }

  /** One pass of the first loop: the row's category entry created on first
      sight, the row added to it, and the row's node appended. */
  method FoldRow(p: seq<GroupRow>, r: GroupRow, order: seq<string>, cats: map<string, CatAcc>, nodes: seq<TopNode>)
    returns (order': seq<string>, cats': map<string, CatAcc>, nodes': seq<TopNode>)
    requires Folded(p, order, cats, nodes)
    ensures Folded(p + [r], order', cats', nodes')
  {
    var c := CategoryOf(r);
    FoldedStep(p, r, order, cats, nodes);
    order', cats' := order, cats;
    if c !in cats' {
      cats' := cats'[c := EmptyAcc];
      order' := order' + [c];
    }
    var cat := cats'[c];
    cats' := cats'[c := AddRow(cat, r)];
    if c !in cats {
      UpdateTwice(cats, c, EmptyAcc, AddRow(cat, r));
    }
    nodes' := nodes + [RowNode(r)];
  }

  lemma CatListsSnoc(rows: seq<GroupRow>, cs: seq<string>, c: string)
    ensures CatEntries(rows, cs + [c]) == CatEntries(rows, cs) + [CatEntryOf(c, AccOf(rows, c))]
    ensures CatNodes(rows, cs + [c]) == CatNodes(rows, cs) + [CatNode(c, AccOf(rows, c))]
  {
    var a, b := CatEntries(rows, cs + [c]), CatEntries(rows, cs) + [CatEntryOf(c, AccOf(rows, c))];
    assert forall i :: 0 <= i < |a| ==> a[i] == b[i];
    var m, n := CatNodes(rows, cs + [c]), CatNodes(rows, cs) + [CatNode(c, AccOf(rows, c))];
    assert forall i :: 0 <= i < |m| ==> m[i] == n[i];
  }

  /** The second loop (lines 682-703): each category finished in dict order,
      its node appended after the row nodes. */
  method FinishCategories(rows: seq<GroupRow>, order: seq<string>, cats: map<string, CatAcc>,
                          rowNodes: seq<TopNode>)
    returns (categoriesList: seq<CatEntry>, nodes: seq<TopNode>)
    requires forall c :: c in order ==> c in cats && cats[c] == AccOf(rows, c)
    ensures categoriesList == CatEntries(rows, order)
    ensures nodes == rowNodes + CatNodes(rows, order)
  {
    categoriesList := [];
    var catNodes: seq<TopNode> := [];
    for j := 0 to |order|
      invariant categoriesList == CatEntries(rows, order[..j])
      invariant catNodes == CatNodes(rows, order[..j])
    {
      var c := order[j];
      assert order[..j + 1] == order[..j] + [c];
      CatListsSnoc(rows, order[..j], c);
      categoriesList := categoriesList + [CatEntryOf(c, cats[c])];
      catNodes := catNodes + [CatNode(c, cats[c])];
    }
    assert order[..|order|] == order;
    nodes := rowNodes + catNodes;
  }

  /** The profile of one user with rows (lines 631-727) and the nodes to
      upsert. */
  method AggregateUser(userId: string, rows: seq<GroupRow>, now: real, start: real, windowHours: int)
    returns (top: LiveTop, nodes: seq<TopNode>)
    ensures top == LiveTopOf(userId, rows, now, start, windowHours)
    ensures nodes == Nodes(rows)
  {
    var totalExposures := Total(rows, false);
    var totalClicks := Total(rows, true);
    var order, cats, rowNodes := FoldRows(rows);
    var categoriesList;
    categoriesList, nodes := FinishCategories(rows, order, cats, rowNodes);
    categoriesList := Sorting.SortByKeyDesc(categoriesList, CatEntryScore);
    var paths := PathsOf(nodes);
    var root := RootEntry(totalExposures, totalClicks,
                          if totalExposures != 0 then totalClicks as real / totalExposures as real else 0.0,
                          totalClicks as real, totalExposures as real,
                          if totalExposures != 0 then totalClicks as real / (totalExposures as real + Epsilon) else 0.0,
                          categoriesList);
    top := LiveTop(userId, "live_recent", now, start, windowHours, root, paths);
  }

  /** `_ensure_watermark`'s reading: `None` when there is no watermark row
      or the row holds NULL. */
  function WindowStart(watermark: Option<Option<real>>, now: real, windowHours: int): (r: real)
    ensures watermark.Some? && watermark.value.Some? ==> r == watermark.value.value
    ensures watermark.None? || watermark.value.None? ==> r == now - windowHours as real * 3600.0
  {
    if watermark.Some? && watermark.value.Some? then watermark.value.value
    else now - windowHours as real * 3600.0
  }

  /** Whether a user gets a new profile: only users with rows do. */
  predicate Processed(rowsFor: (string, real) -> seq<GroupRow>, start: real, u: string)
  {
    rowsFor(u, start) != []
  }

  /** The `user_top` table after upserting the profiles of `users` in turn. */
  function TopsAfter(tops: map<string, LiveTop>, users: seq<string>, rowsFor: (string, real) -> seq<GroupRow>,
                     now: real, start: real, windowHours: int): map<string, LiveTop>
  {
    if users == [] then tops
    else
      var n := |users| - 1;
      var t := TopsAfter(tops, users[..n], rowsFor, now, start, windowHours);
      var u := users[n];
      if Processed(rowsFor, start, u) then t[u := LiveTopOf(u, rowsFor(u, start), now, start, windowHours)]
      else t
  }

  /** Every listed user with rows ends with the profile of its rows. */
  lemma {:induction false} TopsAfterWritten(tops: map<string, LiveTop>, users: seq<string>,
                                            rowsFor: (string, real) -> seq<GroupRow>,
                                            now: real, start: real, windowHours: int, u: string)
    requires u in users && Processed(rowsFor, start, u)
    ensures var t := TopsAfter(tops, users, rowsFor, now, start, windowHours);
      u in t && t[u] == LiveTopOf(u, rowsFor(u, start), now, start, windowHours)
  {
    var n := |users| - 1;
    var p, v := users[..n], users[n];
    var t := TopsAfter(tops, p, rowsFor, now, start, windowHours);
    if v != u {
      var j :| 0 <= j < |users| && users[j] == u;
      assert p[j] == u;
      TopsAfterWritten(tops, p, rowsFor, now, start, windowHours, u);
      assert TopsAfter(tops, users, rowsFor, now, start, windowHours)[u] == t[u];
    }
  }

  /** Every other user keeps what it had. */
  lemma {:induction false} TopsAfterKept(tops: map<string, LiveTop>, users: seq<string>,
                                         rowsFor: (string, real) -> seq<GroupRow>,
                                         now: real, start: real, windowHours: int, u: string)
    requires u !in users || !Processed(rowsFor, start, u)
    ensures var t := TopsAfter(tops, users, rowsFor, now, start, windowHours);
      (u in t <==> u in tops) && (u in tops ==> t[u] == tops[u])
  {
    if users != [] {
      var n := |users| - 1;
      var p, v := users[..n], users[n];
      assert users == p + [v];
      TopsAfterKept(tops, p, rowsFor, now, start, windowHours, u);
    }
  }

  /** The `user_top_nodes` table after upserting a user's nodes in turn; a
      later node with the same path overrides an earlier one. */
  function PutNodes(table: map<(string, string), TopNode>, u: string, nodes: seq<TopNode>): map<(string, string), TopNode>
  {
    if nodes == [] then table
    else
      var n := |nodes| - 1;
      PutNodes(table, u, nodes[..n])[(u, nodes[n].path) := nodes[n]]
  }

  /** The last node with path `p`. */
  function LastWithPath(nodes: seq<TopNode>, p: string): (r: Option<TopNode>)
    ensures r.None? <==> forall i :: 0 <= i < |nodes| ==> nodes[i].path != p
    ensures r.Some? ==> r.value.path == p && r.value in nodes
  {
    if nodes == [] then None
    else
      var n := |nodes| - 1;
      assert forall i :: 0 <= i < n ==> nodes[..n][i] == nodes[i];
      if nodes[n].path == p then Some(nodes[n]) else LastWithPath(nodes[..n], p)
  }

  /** Upserting a user's nodes writes the last node of each of its paths and
      leaves every other key as it was. */
  lemma {:induction false} PutNodesContents(table: map<(string, string), TopNode>, u: string, nodes: seq<TopNode>)
    ensures var t := PutNodes(table, u, nodes);
      (forall v, p :: (v != u || LastWithPath(nodes, p).None?) ==>
         ((v, p) in t <==> (v, p) in table) && ((v, p) in table ==> t[(v, p)] == table[(v, p)]))
      && (forall p :: LastWithPath(nodes, p).Some? ==> (u, p) in t && t[(u, p)] == LastWithPath(nodes, p).value)
  {
    if nodes != [] {
      var n := |nodes| - 1;
      PutNodesContents(table, u, nodes[..n]);
    }
  }

  /** The `user_top_nodes` table after every listed user with rows. */
  function NodesAfter(table: map<(string, string), TopNode>, users: seq<string>,
                      rowsFor: (string, real) -> seq<GroupRow>, start: real): map<(string, string), TopNode>
  {
    if users == [] then table
    else
      var n := |users| - 1;
      var t := NodesAfter(table, users[..n], rowsFor, start);
      if Processed(rowsFor, start, users[n]) then PutNodes(t, users[n], Nodes(rowsFor(users[n], start))) else t
  }

  /** How many listed users have rows. */
  function ProcessedCount(users: seq<string>, rowsFor: (string, real) -> seq<GroupRow>, start: real): (n: nat)
    ensures n <= |users|
  {
    if users == [] then 0
    else ProcessedCount(users[..|users| - 1], rowsFor, start) + if Processed(rowsFor, start, users[|users| - 1]) then 1 else 0
  }

  /** How many nodes the listed users with rows write. */
  function NodesWritten(users: seq<string>, rowsFor: (string, real) -> seq<GroupRow>, start: real): nat
  {
    if users == [] then 0
    else
      var n := |users| - 1;
      NodesWritten(users[..n], rowsFor, start)
        + if Processed(rowsFor, start, users[n]) then |Nodes(rowsFor(users[n], start))| else 0
  }

  /** One more user: each running result changes only if the user has rows. */
  lemma AfterStep(tops: map<string, LiveTop>, table: map<(string, string), TopNode>, users: seq<string>, i: nat,
                  rowsFor: (string, real) -> seq<GroupRow>, now: real, start: real, windowHours: int)
    requires i < |users|
    ensures var p, q, u := users[..i], users[..i + 1], users[i];
      var rows := rowsFor(u, start);
      && TopsAfter(tops, q, rowsFor, now, start, windowHours)
         == (if rows != [] then TopsAfter(tops, p, rowsFor, now, start, windowHours)[u := LiveTopOf(u, rows, now, start, windowHours)]
             else TopsAfter(tops, p, rowsFor, now, start, windowHours))
      && NodesAfter(table, q, rowsFor, start)
         == (if rows != [] then PutNodes(NodesAfter(table, p, rowsFor, start), u, Nodes(rows)) else NodesAfter(table, p, rowsFor, start))
      && ProcessedCount(q, rowsFor, start) == ProcessedCount(p, rowsFor, start) + (if rows != [] then 1 else 0)
      && NodesWritten(q, rowsFor, start) == NodesWritten(p, rowsFor, start) + (if rows != [] then |Nodes(rows)| else 0)
  {
    var q := users[..i + 1];
    assert q[..|q| - 1] == users[..i] && q[|q| - 1] == users[i];
    TopsAfterStep(tops, q, rowsFor, now, start, windowHours);
    NodesAfterStep(table, q, rowsFor, start);
    CountsAfterStep(q, rowsFor, start);
  }

  /** `TopsAfter` over a non-empty list: the last user's step. */
  lemma TopsAfterStep(tops: map<string, LiveTop>, q: seq<string>, rowsFor: (string, real) -> seq<GroupRow>,
                      now: real, start: real, windowHours: int)
    requires q != []
    ensures var p, u := q[..|q| - 1], q[|q| - 1];
      TopsAfter(tops, q, rowsFor, now, start, windowHours)
      == (if rowsFor(u, start) != [] then TopsAfter(tops, p, rowsFor, now, start, windowHours)[u := LiveTopOf(u, rowsFor(u, start), now, start, windowHours)]
          else TopsAfter(tops, p, rowsFor, now, start, windowHours))
  {
  }

  /** `NodesAfter` over a non-empty list: the last user's step. */
  lemma NodesAfterStep(table: map<(string, string), TopNode>, q: seq<string>, rowsFor: (string, real) -> seq<GroupRow>, start: real)
    requires q != []
    ensures var p, u := q[..|q| - 1], q[|q| - 1];
      NodesAfter(table, q, rowsFor, start)
      == (if rowsFor(u, start) != [] then PutNodes(NodesAfter(table, p, rowsFor, start), u, Nodes(rowsFor(u, start)))
          else NodesAfter(table, p, rowsFor, start))
  {
  }

  /** `ProcessedCount` and `NodesWritten` over a non-empty list: the last user's step. */
  lemma CountsAfterStep(q: seq<string>, rowsFor: (string, real) -> seq<GroupRow>, start: real)
    requires q != []
    ensures var p, u := q[..|q| - 1], q[|q| - 1];
      && ProcessedCount(q, rowsFor, start) == ProcessedCount(p, rowsFor, start) + (if rowsFor(u, start) != [] then 1 else 0)
      && NodesWritten(q, rowsFor, start) == NodesWritten(p, rowsFor, start) + (if rowsFor(u, start) != [] then |Nodes(rowsFor(u, start))| else 0)
  {
  }

  /** The summary `update_top_incremental` returns. */
  datatype UpdateSummary = UpdateSummary(windowHours: int, startTs: real, endTs: real,
                                         usersProcessed: nat, nodesWritten: nat)

  /** The profile tables and the watermark row. The watermark is `None` while
      the table has no row, `Some(None)` when the row holds NULL. */
  class TopTables {
    var watermark: Option<Option<real>>
    var userTop: map<string, LiveTop>
    var topNodes: map<(string, string), TopNode>

    constructor(watermark0: Option<Option<real>>, userTop0: map<string, LiveTop>,
                topNodes0: map<(string, string), TopNode>)
      ensures watermark == watermark0 && userTop == userTop0 && topNodes == topNodes0
    {
      watermark, userTop, topNodes := watermark0, userTop0, topNodes0;
    }

    /** `_ensure_watermark`: a missing row is created holding NULL. */
    method EnsureWatermark() returns (last: Option<real>)
      modifies this
      ensures old(watermark).None? ==> watermark == Some(None) && last == None
      ensures old(watermark).Some? ==> watermark == old(watermark) && last == old(watermark).value
      ensures userTop == old(userTop) && topNodes == old(topNodes)
    {
      if watermark.None? {
        watermark := Some(None);
        return None;
      }
      last := watermark.value;
    }

    /** The body of the per-user loop (lines 631-781) for a user with rows:
        its profile replaces the stored one and its nodes are upserted. */
    method StoreUser(u: string, rows: seq<GroupRow>, now: real, start: real, windowHours: int)
      returns (written: nat)
      requires rows != []
      modifies this
      ensures userTop == old(userTop)[u := LiveTopOf(u, rows, now, start, windowHours)]
      ensures topNodes == PutNodes(old(topNodes), u, Nodes(rows))
      ensures written == |Nodes(rows)|
      ensures watermark == old(watermark)
    {
      var top, nodes := AggregateUser(u, rows, now, start, windowHours);
      ghost var n := |nodes|;
      assert n > 0 by { assert n == |rows| + |CategoryOrder(rows)|; }
      userTop := userTop[u := top];
      written := 0;
      if nodes != [] {
        topNodes := PutNodes(topNodes, u, nodes);
        written := |nodes|;
      }
    }

    /** `update_top_incremental`. The users active since the window start
        and each user's grouped rows come from queries, given here as
        functions of the start. Users without rows are skipped; every other
        user's profile and nodes are upserted; the watermark becomes `now`
        after the last user. */
    method UpdateTopIncremental(now: real, windowHours: int, activeUsers: real -> seq<string>,
                                rowsFor: (string, real) -> seq<GroupRow>) returns (summary: UpdateSummary)
      modifies this
      ensures var start := WindowStart(old(watermark), now, windowHours);
        var users := activeUsers(start);
        summary == UpdateSummary(windowHours, start, now, ProcessedCount(users, rowsFor, start),
                                 NodesWritten(users, rowsFor, start))
        && userTop == TopsAfter(old(userTop), users, rowsFor, now, start, windowHours)
        && topNodes == NodesAfter(old(topNodes), users, rowsFor, start)
      ensures watermark == Some(Some(now))
    {
      var last := EnsureWatermark();
      var start := if last.None? then now - windowHours as real * 3600.0 else last.value;
      assert start == WindowStart(old(watermark), now, windowHours);
      var users := activeUsers(start);
      ghost var tops0, nodes0 := userTop, topNodes;
      var processed, written := 0, 0;
      for i := 0 to |users|
        invariant userTop == TopsAfter(tops0, users[..i], rowsFor, now, start, windowHours)
        invariant topNodes == NodesAfter(nodes0, users[..i], rowsFor, start)
        invariant processed == ProcessedCount(users[..i], rowsFor, start)
        invariant written == NodesWritten(users[..i], rowsFor, start)
      {
        var u := users[i];
        AfterStep(tops0, nodes0, users, i, rowsFor, now, start, windowHours);
        var rows := rowsFor(u, start);
        if rows != [] {
          var n := StoreUser(u, rows, now, start, windowHours);
          written := written + n;
          processed := processed + 1;
        }
      }
      assert users[..|users|] == users;
      watermark := Some(Some(now));
      summary := UpdateSummary(windowHours, start, now, processed, written);
    }
  }
}
