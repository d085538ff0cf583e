// Python `str` operations that the pipeline relies on, on `seq<char>`:
// `strip`, `split()` and `split(sep)`, `" ".join`, `lower`, `startswith`,
// `in` (substring) and `int(...)` of a decimal string.
module Text {
  import opened Wrappers

  /** Python's `str.isspace` for one character (the Unicode whitespace set). */
  predicate IsSpace(c: char)
  {
    ('\U{09}' <= c <= '\U{0D}') || ('\U{1C}' <= c <= '\U{20}')
    || c == '\U{85}' || c == '\U{A0}' || c == '\U{1680}'
    || ('\U{2000}' <= c <= '\U{200A}') || c == '\U{2028}' || c == '\U{2029}'
    || c == '\U{202F}' || c == '\U{205F}' || c == '\U{3000}'
  }

  /** No character of `s` is whitespace. */
  predicate NoSpace(s: string)
  {
    forall i :: 0 <= i < |s| ==> !IsSpace(s[i])
  }

  /** `s.lstrip()` */
  function LStrip(s: string): (r: string)
    ensures |r| <= |s| && r == s[|s| - |r|..]
    ensures r == [] || !IsSpace(r[0])
    ensures forall i :: 0 <= i < |s| - |r| ==> IsSpace(s[i])
  {
    if s == [] || !IsSpace(s[0]) then s else LStrip(s[1..])
  }

  /** `s.rstrip()` */
  function RStrip(s: string): (r: string)
    ensures |r| <= |s| && r == s[..|r|]
    ensures r == [] || !IsSpace(r[|r| - 1])
    ensures forall i :: |r| <= i < |s| ==> IsSpace(s[i])
  {
    if s == [] || !IsSpace(s[|s| - 1]) then s else RStrip(s[..|s| - 1])
  }

  /** `s.strip()` */
  function Strip(s: string): (r: string)
    ensures r == [] || (!IsSpace(r[0]) && !IsSpace(r[|r| - 1]))
  {
    RStrip(LStrip(s))
  }

  /** `s.lstrip(c)` for a single character `c`. */
  function LStripChar(s: string, c: char): (r: string)
    ensures |r| <= |s| && r == s[|s| - |r|..] && (r == [] || r[0] != c)
  {
    if s != [] && s[0] == c then LStripChar(s[1..], c) else s
  }

  /** `s.rstrip(c)` for a single character `c`. */
  function RStripChar(s: string, c: char): (r: string)
    ensures |r| <= |s| && r == s[..|r|] && (r == [] || r[|r| - 1] != c)
  {
    if s != [] && s[|s| - 1] == c then RStripChar(s[..|s| - 1], c) else s
  }

  /** A non-empty run of non-whitespace characters. */
  predicate IsWord(w: string)
  {
    w != [] && NoSpace(w)
  }

  /** The longest prefix of `s` without whitespace. */
  function TakeWord(s: string): (w: string)
    ensures |w| <= |s| && w == s[..|w|] && NoSpace(w)
    ensures |w| < |s| ==> IsSpace(s[|w|])
    ensures s != [] && !IsSpace(s[0]) ==> w != []
  {
    if s == [] || IsSpace(s[0]) then [] else [s[0]] + TakeWord(s[1..])
  }

  /** `s.split()`: the maximal runs of non-whitespace characters. */
  function Words(s: string): (ws: seq<string>)
    ensures forall i :: 0 <= i < |ws| ==> IsWord(ws[i])
    decreases |s|
  {
    var t := LStrip(s);
    if t == [] then []
    else
      var w := TakeWord(t);
      var rest := Words(t[|w|..]);
      ConsWords(w, rest);
      [w] + rest
  }

  lemma ConsWords(w: string, ws: seq<string>)
    requires IsWord(w) && forall i :: 0 <= i < |ws| ==> IsWord(ws[i])
    ensures forall i :: 0 <= i < |ws| + 1 ==> IsWord(([w] + ws)[i])
  {
  }

  /** `sep.join(ws)` */
  function Join(ws: seq<string>, sep: string): string
  {
    if |ws| == 0 then [] else if |ws| == 1 then ws[0] else ws[0] + sep + Join(ws[1..], sep)
  }

  /** `s.split(sep)` for a one-character separator: always at least one piece. */
  function SplitOn(s: string, sep: char): (parts: seq<string>)
    ensures |parts| >= 1
    ensures forall i :: 0 <= i < |parts| ==> sep !in parts[i]
  {
    if s == [] then [""]
    else
      var rest := SplitOn(s[1..], sep);
      if s[0] == sep then [""] + rest else [[s[0]] + rest[0]] + rest[1..]
  }

  /** Splitting on `sep` and joining with `sep` gives back the string. */
  lemma {:induction false} JoinSplitOn(s: string, sep: char)
    ensures Join(SplitOn(s, sep), [sep]) == s
  {
    if s != [] {
      var rest := SplitOn(s[1..], sep);
      JoinSplitOn(s[1..], sep);
      if s[0] != sep && |rest| > 1 {
        assert SplitOn(s, sep)[1..] == rest[1..];
        assert Join(rest, [sep]) == rest[0] + [sep] + Join(rest[1..], [sep]);
        assert s == [s[0]] + s[1..];
      }
    }
  }

  /** A string without the separator is its own single piece. */
  lemma {:induction false} SplitOnNoSep(s: string, sep: char)
    requires sep !in s
    ensures SplitOn(s, sep) == [s]
  {
    if s != [] {
      SplitOnNoSep(s[1..], sep);
      assert [s[0]] + s[1..] == s;
    }
  }

  /** The piece before the first separator, then the pieces of the rest. */
  lemma {:induction false} SplitOnFirst(a: string, sep: char, b: string)
    requires sep !in a
    ensures SplitOn(a + [sep] + b, sep) == [a] + SplitOn(b, sep)
  {
    var s := a + [sep] + b;
    if a == [] {
      assert s[1..] == b;
    } else {
      assert s[1..] == a[1..] + [sep] + b;
      SplitOnFirst(a[1..], sep, b);
      assert [a[0]] + a[1..] == a;
    }
  }

  /** Index of the last occurrence of `c` in `s`, if any. */
  function LastIndexOf(s: string, c: char): (r: Option<nat>)
    ensures r.None? <==> c !in s
    ensures r.Some? ==> r.value < |s| && s[r.value] == c && c !in s[r.value + 1..]
  {
    if s == [] then None
    else if s[|s| - 1] == c then Some(|s| - 1)
    else
      var r := LastIndexOf(s[..|s| - 1], c);
      assert s == s[..|s| - 1] + [s[|s| - 1]];
      if r.Some? then assert s[r.value + 1..] == s[..|s| - 1][r.value + 1..] + [s[|s| - 1]]; r else r
  }

  /** ASCII `str.lower` on one character. */
  function LowerChar(c: char): char
  {
    if 'A' <= c <= 'Z' then (c as int + 32) as char else c
  }

  /** `s.lower()` restricted to ASCII letters. */
  function Lower(s: string): (r: string)
    ensures |r| == |s| && forall i :: 0 <= i < |s| ==> r[i] == LowerChar(s[i])
  {
    seq(|s|, i requires 0 <= i < |s| => LowerChar(s[i]))
  }

  /** `s.startswith(p)` */
  predicate StartsWith(s: string, p: string)
  {
    |p| <= |s| && s[..|p|] == p
  }

  /** `sub in s` for strings: `sub` occurs somewhere in `s`. */
  predicate Contains(s: string, sub: string)
    decreases |s|
  {
    StartsWith(s, sub) || (s != [] && Contains(s[1..], sub))
  }

  /** `Contains` holds exactly when `sub` sits at some offset of `s`. */
  lemma {:induction false} ContainsAt(s: string, sub: string, k: nat)
    requires k + |sub| <= |s| && s[k..k + |sub|] == sub
    ensures Contains(s, sub)
    decreases k
  {
    if k > 0 {
      assert s[1..][k - 1..k - 1 + |sub|] == s[k..k + |sub|];
      ContainsAt(s[1..], sub, k - 1);
    }
  }

  function DigitValue(c: char): nat
    requires '0' <= c <= '9'
  {
    c as int - '0' as int
  }

  predicate AllDigits(s: string)
  {
    forall i :: 0 <= i < |s| ==> '0' <= s[i] <= '9'
  }

  /** The value of a string of decimal digits. */
  function DigitsValue(s: string): nat
    requires AllDigits(s)
  {
    if s == [] then 0 else DigitsValue(s[..|s| - 1]) * 10 + DigitValue(s[|s| - 1])
  }

  /** `str(n)` for a natural number. */
  function NatToString(n: nat): (s: string)
    ensures s != [] && AllDigits(s)
  {
    if n < 10 then [('0' as int + n) as char]
    else NatToString(n / 10) + [('0' as int + n % 10) as char]
  }

  /** `int(s)`: optional surrounding whitespace, an optional sign, then ASCII digits. */
  function ParseInt(s: string): (r: Option<int>)
    ensures r.Some? ==> Strip(s) != []
  {
    var t := Strip(s);
    if t == [] then None
    else
      var neg := t[0] == '-';
      var body := if t[0] == '-' || t[0] == '+' then t[1..] else t;
      if body == [] || !AllDigits(body) then None
      else
        var v: int := DigitsValue(body);
        Some(if neg then -v else v)
  }

  lemma {:induction false} DigitsOfNat(n: nat)
    ensures DigitsValue(NatToString(n)) == n
  {
    if n >= 10 {
      var s := NatToString(n);
      DigitsOfNat(n / 10);
      assert s[..|s| - 1] == NatToString(n / 10);
    }
  }

  lemma StripNoSpace(s: string)
    requires s != [] && !IsSpace(s[0]) && !IsSpace(s[|s| - 1])
    ensures Strip(s) == s
  {
  }

  /** `int(str(n)) == n` */
  lemma ParseNatToString(n: nat)
    ensures ParseInt(NatToString(n)) == Some(n)
  {
    var s := NatToString(n);
    StripNoSpace(s);
    DigitsOfNat(n);
  }

  // ---- whitespace normalisation: " ".join(s.strip().split()) ----

  /** Every character of `s` is whitespace. */
  predicate AllSpace(s: string)
  {
    forall i :: 0 <= i < |s| ==> IsSpace(s[i])
  }

  /** `strip` removes exactly the whitespace padding around a word that
      neither starts nor ends with whitespace. */
  lemma StripPadded(a: string, w: string, b: string)
    requires AllSpace(a) && AllSpace(b)
    requires w != [] && !IsSpace(w[0]) && !IsSpace(w[|w| - 1])
    ensures Strip(a + w + b) == w
  {
    var t := w + b;
    assert a + w + b == a + t;
    LStripSpaces(a, t);
    assert LStrip(t) == t by { assert t[0] == w[0]; }
    RStripSpaces(w, b);
    RStripNonSpace(w);
  }

  /** Leading whitespace is skipped whatever follows it. */
  lemma {:induction false} LStripSpaces(a: string, t: string)
    requires AllSpace(a)
    ensures LStrip(a + t) == LStrip(t)
  {
    if a != [] {
      assert (a + t)[1..] == a[1..] + t;
      LStripSpaces(a[1..], t);
    } else {
      assert a + t == t;
    }
  }

  /** Trailing whitespace is skipped whatever precedes it. */
  lemma {:induction false} RStripSpaces(t: string, b: string)
    requires AllSpace(b)
    ensures RStrip(t + b) == RStrip(t)
  {
    if b != [] {
      var n := |b| - 1;
      assert (t + b)[..|t| + n] == t + b[..n];
      RStripSpaces(t, b[..n]);
    } else {
      assert t + b == t;
    }
  }

  lemma LStripNonSpace(s: string)
    requires s == [] || !IsSpace(s[0])
    ensures LStrip(s) == s
  {
  }

  lemma RStripNonSpace(s: string)
    requires s == [] || !IsSpace(s[|s| - 1])
    ensures RStrip(s) == s
  {
  }

  lemma {:induction false} TakeWordPrefix(w: string, rest: string)
    requires NoSpace(w) && (rest == [] || IsSpace(rest[0]))
    ensures TakeWord(w + rest) == w
  {
    if w != [] {
      assert (w + rest)[1..] == w[1..] + rest;
      TakeWordPrefix(w[1..], rest);
    } else {
      assert w + rest == rest;
    }
  }

  lemma {:induction false} JoinFirstLast(ws: seq<string>)
    requires forall i :: 0 <= i < |ws| ==> IsWord(ws[i])
    ensures var j := Join(ws, " "); ws != [] ==> j != [] && !IsSpace(j[0]) && !IsSpace(j[|j| - 1])
  {
    if |ws| > 1 {
      JoinFirstLast(ws[1..]);
    }
  }

  lemma SpaceThenWord(tail: string)
    requires tail == [] || !IsSpace(tail[0])
    ensures LStrip(" " + tail) == tail
  {
    assert (" " + tail)[1..] == tail;
    LStripNonSpace(tail);
  }

  lemma WordsUnfold(s: string)
    requires s != [] && !IsSpace(s[0])
    ensures Words(s) == [TakeWord(s)] + Words(s[|TakeWord(s)|..])
  {
    LStripNonSpace(s);
  }

  lemma WordsOfOne(w: string)
    requires IsWord(w)
    ensures Words(w) == [w]
  {
    TakeWordPrefix(w, []);
    assert w + [] == w;
    WordsUnfold(w);
    assert w[|w|..] == [];
  }

  lemma WordsOfCons(w: string, tail: string)
    requires IsWord(w) && tail != [] && !IsSpace(tail[0])
    ensures Words(w + " " + tail) == [w] + Words(tail)
  {
    assert w + " " + tail == w + (" " + tail);
    WordsOfPrefix(w, " " + tail);
    WordsAfterSpace(tail);
  }

  lemma WordsOfPrefix(w: string, rest: string)
    requires IsWord(w) && (rest == [] || IsSpace(rest[0]))
    ensures Words(w + rest) == [w] + Words(rest)
  {
    var j := w + rest;
    assert j[0] == w[0];
    TakeWordPrefix(w, rest);
    WordsUnfold(j);
    assert j[|w|..] == rest;
  }

  lemma WordsAfterSpace(tail: string)
    requires tail != [] && !IsSpace(tail[0])
    ensures Words(" " + tail) == Words(tail)
  {
    SpaceThenWord(tail);
    LStripNonSpace(tail);
  }

  /** Splitting a space-joined list of words gives back the words. */
  lemma {:induction false} WordsOfJoin(ws: seq<string>)
    requires forall i :: 0 <= i < |ws| ==> IsWord(ws[i])
    ensures Words(Join(ws, " ")) == ws
  {
    if |ws| == 1 {
      WordsOfOne(ws[0]);
    } else if |ws| > 1 {
      var tail := ws[1..];
      assert [ws[0]] + tail == ws;
      assert forall i :: 0 <= i < |tail| ==> IsWord(tail[i]) by {
        forall i | 0 <= i < |tail| ensures IsWord(tail[i]) { assert tail[i] == ws[i + 1]; }
      }
      JoinFirstLast(tail);
      assert Join(ws, " ") == ws[0] + " " + Join(tail, " ");
      WordsOfCons(ws[0], Join(tail, " "));
      WordsOfJoin(tail);
    }
  }

  /** `" ".join(s.strip().split())` */
  function Normalize(s: string): (r: string)
    ensures r == [] || (!IsSpace(r[0]) && !IsSpace(r[|r| - 1]))
  {
    var ws := Words(Strip(s));
    JoinFirstLast(ws);
    Join(ws, " ")
  }

  /** Every whitespace character of `r` is a single space between two
      non-whitespace characters. */
  predicate SingleSpaced(r: string)
  {
    forall i :: 0 <= i < |r| && IsSpace(r[i]) ==>
      r[i] == ' ' && 0 < i < |r| - 1 && !IsSpace(r[i - 1]) && !IsSpace(r[i + 1])
  }

  /** A space-joined list of words is single-spaced. */
  lemma {:induction false} JoinSingleSpaces(ws: seq<string>)
    requires forall i :: 0 <= i < |ws| ==> IsWord(ws[i])
    ensures SingleSpaced(Join(ws, " "))
  {
    if |ws| > 1 {
      var tail := Join(ws[1..], " ");
      var j := Join(ws, " ");
      JoinSingleSpaces(ws[1..]);
      JoinFirstLast(ws[1..]);
      var n := |ws[0]|;
      assert j == ws[0] + " " + tail;
      forall i | 0 <= i < |j| && IsSpace(j[i])
        ensures j[i] == ' ' && 0 < i < |j| - 1 && !IsSpace(j[i - 1]) && !IsSpace(j[i + 1])
      {
        if i > n {
          assert j[i] == tail[i - n - 1];
          if i > n + 1 { assert j[i - 1] == tail[i - n - 2]; }
          assert j[i + 1] == tail[i - n];
        }
      }
    }
  }

  /** Normalised text has no leading, trailing or repeated whitespace, and
      normalising twice is normalising once. */
  lemma NormalizeShape(s: string)
    ensures SingleSpaced(Normalize(s))
    ensures Normalize(Normalize(s)) == Normalize(s)
  {
    NormalizeSingleSpaced(s);
    NormalizeTwice(s);
  }

  lemma NormalizeSingleSpaced(s: string)
    ensures SingleSpaced(Normalize(s))
  {
    JoinWordsSingleSpaced(Strip(s));
    assert Normalize(s) == Join(Words(Strip(s)), " ");
  }

  lemma JoinWordsSingleSpaced(s: string)
    ensures SingleSpaced(Join(Words(s), " "))
  {
    JoinSingleSpaces(Words(s));
  }

  lemma NormalizeTwice(s: string)
    ensures Normalize(Normalize(s)) == Normalize(s)
  {
    var ws := Words(Strip(s));
    var r := Join(ws, " ");
    assert Normalize(s) == r;
    if ws == [] {
      assert r == [];
    } else {
      JoinFirstLast(ws);
      StripNoSpace(r);
      WordsOfJoin(ws);
      assert Words(Strip(r)) == ws;
    }
  }
}
