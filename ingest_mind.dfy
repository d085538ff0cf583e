// The staging loader of ml/scripts/ingest_mind_to_postgres.py: MIND
// `news.tsv` and `behaviors.tsv` lines become staging rows, which are
// buffered and copied to the staging tables in batches of BATCH_SIZE. A
// file is its sequence of lines; COPY is modelled by the text fields it
// sends (csv quoting left out), appended to the staging table.
module IngestMind {
  import opened Wrappers
  import opened Text

  const BatchSize: nat := 10000

  /** A value in a row list: text, a position, a flag, or `None`. */
  datatype Cell = TextCell(s: string) | IntCell(n: nat) | BoolCell(b: bool) | Null

  type Row = seq<Cell>

  // ---------------------------------------------------------------------
  // copy_rows formatting
  // ---------------------------------------------------------------------

  /** A cell as COPY receives it: `None` is sent as `\N`. */
  function FormatCell(c: Cell): (t: string)
    ensures c.Null? ==> t == "\\N"
    ensures c.TextCell? ==> t == c.s
  {
    match c
    case TextCell(s) => s
    case IntCell(n) => NatToString(n)
    case BoolCell(b) => if b then "True" else "False"
    case Null => "\\N"
  }

  function FormatRow(row: Row): (r: seq<string>)
    ensures |r| == |row| && forall i :: 0 <= i < |row| ==> r[i] == FormatCell(row[i])
  {
    seq(|row|, i requires 0 <= i < |row| => FormatCell(row[i]))
  }

  function FormatRows(rows: seq<Row>): (r: seq<seq<string>>)
    ensures |r| == |rows| && forall i :: 0 <= i < |rows| ==> r[i] == FormatRow(rows[i])
  {
    seq(|rows|, i requires 0 <= i < |rows| => FormatRow(rows[i]))
  }

  lemma FormatRowsAppend(a: seq<Row>, b: seq<Row>)
    ensures FormatRows(a + b) == FormatRows(a) + FormatRows(b)
  {
  }

  // ---------------------------------------------------------------------
  // Line splitting and padding
  // ---------------------------------------------------------------------

  /** `line.rstrip("\n").split("\t")` */
  function Fields(line: string): (parts: seq<string>)
    ensures |parts| >= 1
  {
    SplitOn(RStripChar(line, '\n'), '\t')
  }

  /** `parts` after `while len(parts) < n: parts.append("")`. */
  function Padded(parts: seq<string>, n: nat): (r: seq<string>)
    ensures |r| == if |parts| < n then n else |parts|
    ensures r[..|parts|] == parts
    ensures forall i :: |parts| <= i < |r| ==> r[i] == ""
  {
    if |parts| < n then parts + seq(n - |parts|, _ => "") else parts
  }

  /** The padding loop. */
  method PadFields(parts: seq<string>, n: nat) returns (r: seq<string>)
    ensures r == Padded(parts, n)
  {
    r := parts;
    while |r| < n
      invariant r[..|parts|] == parts && |parts| <= |r|
      invariant |r| <= n || r == parts
      invariant forall i :: |parts| <= i < |r| ==> r[i] == ""
      decreases n - |r|
    {
      r := r + [""];
    }
  }

  /** The tokens of a space-separated list, empty ones dropped:
      `[t for t in (s.split(" ") if s else []) if t]`. */
  function Tokens(s: string): (ts: seq<string>)
    ensures forall i :: 0 <= i < |ts| ==> ts[i] != "" && ' ' !in ts[i]
  {
    if s == "" then [] else NonEmpty(SplitOn(s, ' '))
  }

  function NonEmpty(ps: seq<string>): (ts: seq<string>)
    ensures forall i :: 0 <= i < |ts| ==> ts[i] != "" && ts[i] in ps
    ensures forall p :: p in ps && p != "" ==> p in ts
    ensures |ts| <= |ps|
  {
    if ps == [] then []
    else
      var n := |ps| - 1;
      var ts := NonEmpty(ps[..n]);
      assert forall p :: p in ps <==> p in ps[..n] || p == ps[n];
      if ps[n] == "" then ts else ts + [ps[n]]
  }

  // ---------------------------------------------------------------------
  // parse_click
  // ---------------------------------------------------------------------

  /** `parse_click`: splits at the last `-`; label "1" is 1, "0" is 0,
      anything else `None`; an entry without `-` is kept whole. */
  function ParseClick(entry: string): (r: (string, Option<nat>))
    ensures '-' !in entry ==> r == (entry, None)
    ensures '-' in entry ==> exists k :: (0 <= k < |entry| && entry[k] == '-' && '-' !in entry[k + 1..]
      && r.0 == entry[..k]
      && r.1 == (if entry[k + 1..] == "1" then Some(1) else if entry[k + 1..] == "0" then Some(0) else None))
  {
    match LastIndexOf(entry, '-')
    case None => (entry, None)
    case Some(k) =>
      var tag := entry[k + 1..];
      (entry[..k], if tag == "1" then Some(1) else if tag == "0" then Some(0) else None)
  }

  /** An id with a `-1` or `-0` label parses back to that id and label,
      whatever dashes the id holds. */
  lemma ParseClickRoundTrip(id: string)
    ensures ParseClick(id + "-1") == (id, Some(1))
    ensures ParseClick(id + "-0") == (id, Some(0))
  {
    var e1, e0 := id + "-1", id + "-0";
    assert e1[..|e1| - 1] == id + "-";
    assert e0[..|e0| - 1] == id + "-";
    assert LastIndexOf(e1, '-') == Some(|id|);
    assert LastIndexOf(e0, '-') == Some(|id|);
    assert e1[..|id|] == id && e0[..|id|] == id;
  }

  /** `clicked`: True for label 1, False for label 0, else None. */
  function ClickedCell(tag: Option<nat>): Cell
  {
    if tag == Some(1) then BoolCell(true) else if tag == Some(0) then BoolCell(false) else Null
  }

  // ---------------------------------------------------------------------
  // Row building
  // ---------------------------------------------------------------------

  /** The rows of one `behaviors.tsv` line. */
  datatype BehaviorRows = BehaviorRows(session: Row, history: seq<Row>, impressions: seq<Row>)

  /** `[impression_id, news_id, position, split]` */
  function HistoryRow(impressionId: string, token: string, position: nat, split: string): Row
  {
    [TextCell(impressionId), TextCell(token), IntCell(position), TextCell(split)]
  }

  /** `[impression_id, news_id, position, clicked, split]`, the news id and
      the flag parsed from the token. */
  function ImpressionRow(impressionId: string, token: string, position: nat, split: string): Row
  {
    var (newsId, tag) := ParseClick(token);
    [TextCell(impressionId), TextCell(newsId), IntCell(position), ClickedCell(tag), TextCell(split)]
  }

  /** A token `N-1` or `N-0` gives the impression row of news item `N`
      flagged clicked or not clicked; a token without a label leaves the flag
      `None`. */
  lemma ImpressionRowLabels(impressionId: string, newsId: string, position: nat, split: string)
    ensures ImpressionRow(impressionId, newsId + "-1", position, split)
      == [TextCell(impressionId), TextCell(newsId), IntCell(position), BoolCell(true), TextCell(split)]
    ensures ImpressionRow(impressionId, newsId + "-0", position, split)
      == [TextCell(impressionId), TextCell(newsId), IntCell(position), BoolCell(false), TextCell(split)]
    ensures '-' !in newsId ==>
      ImpressionRow(impressionId, newsId, position, split)
        == [TextCell(impressionId), TextCell(newsId), IntCell(position), Null, TextCell(split)]
  {
    ParseClickRoundTrip(newsId);
  }

  /** The history rows: one per non-empty token, positions from 1. */
  function HistoryRows(impressionId: string, history: string, split: string): (rs: seq<Row>)
    ensures var ts := Tokens(history);
      |rs| == |ts| && forall i :: 0 <= i < |ts| ==> rs[i] == HistoryRow(impressionId, ts[i], i + 1, split)
  {
    var ts := Tokens(history);
    seq(|ts|, i requires 0 <= i < |ts| => HistoryRow(impressionId, ts[i], i + 1, split))
  }

  /** The impression rows: one per non-empty token, positions from 1. */
  function ImpressionRows(impressionId: string, impressions: string, split: string): (rs: seq<Row>)
    ensures var ts := Tokens(impressions);
      |rs| == |ts| && forall i :: 0 <= i < |ts| ==> rs[i] == ImpressionRow(impressionId, ts[i], i + 1, split)
  {
    var ts := Tokens(impressions);
    seq(|ts|, i requires 0 <= i < |ts| => ImpressionRow(impressionId, ts[i], i + 1, split))
  }

  /** One behaviours line: padded to five fields; more than five fail the
      unpacking. */
  function ParseBehaviorLine(line: string, split: string): (r: Result<BehaviorRows, string>)
    ensures r.Err? <==> |Fields(line)| > 5
    ensures r.Ok? ==> var p := Padded(Fields(line), 5);
      r.value.session == [TextCell(p[0]), TextCell(p[1]), TextCell(p[2]), TextCell(split)]
      && |r.value.history| == |Tokens(p[3])| && |r.value.impressions| == |Tokens(p[4])|
  {
    var p := Padded(Fields(line), 5);
    if |p| != 5 then Err("too many values to unpack (expected 5)")
    else Ok(BehaviorRows([TextCell(p[0]), TextCell(p[1]), TextCell(p[2]), TextCell(split)],
                         HistoryRows(p[0], p[3], split), ImpressionRows(p[0], p[4], split)))
  }

  /** `x or "[]"` for an entity field. */
  function EntitiesOrEmpty(s: string): string
  {
    if s == "" then "[]" else s
  }

  /** One `news.tsv` line: padded to eight fields, more than eight fail the
      unpacking, empty entity fields become "[]". */
  function ParseItemLine(line: string): (r: Result<Row, string>)
    ensures r.Err? <==> |Fields(line)| > 8
    ensures r.Ok? ==> var p := Padded(Fields(line), 8);
      |r.value| == 8 && (forall i :: 0 <= i < 6 ==> r.value[i] == TextCell(p[i]))
      && r.value[6] == TextCell(if p[6] == "" then "[]" else p[6])
      && r.value[7] == TextCell(if p[7] == "" then "[]" else p[7])
  {
    var p := Padded(Fields(line), 8);
    if |p| != 8 then Err("too many values to unpack (expected 8)")
    else Ok([TextCell(p[0]), TextCell(p[1]), TextCell(p[2]), TextCell(p[3]), TextCell(p[4]), TextCell(p[5]),
             TextCell(EntitiesOrEmpty(p[6])), TextCell(EntitiesOrEmpty(p[7]))])
  }

  /** Every line of the file parses. */
  predicate ItemsParse(lines: seq<string>)
  {
    forall i :: 0 <= i < |lines| ==> |Fields(lines[i])| <= 8
  }

  function ItemRows(lines: seq<string>): (rs: seq<Row>)
    requires ItemsParse(lines)
    ensures |rs| == |lines| && forall i :: 0 <= i < |lines| ==> rs[i] == ParseItemLine(lines[i]).value
  {
    seq(|lines|, i requires 0 <= i < |lines| && ItemsParse(lines) => ParseItemLine(lines[i]).value)
  }

  lemma ItemRowsSnoc(lines: seq<string>, i: nat)
    requires i < |lines| && ItemsParse(lines[..i]) && |Fields(lines[i])| <= 8
    ensures ItemsParse(lines[..i + 1])
    ensures ItemRows(lines[..i + 1]) == ItemRows(lines[..i]) + [ParseItemLine(lines[i]).value]
  {
    var p, s := lines[..i], lines[..i + 1];
    assert forall j :: 0 <= j < i ==> s[j] == p[j];
  }

  /** The reading of one `news.tsv` line in `load_items_to_staging`. */
  method ParseItem(line: string) returns (r: Result<Row, string>)
    ensures r == ParseItemLine(line)
  {
    var parts := Fields(line);
    parts := PadFields(parts, 8);
    if |parts| != 8 {
      return Err("too many values to unpack (expected 8)");
    }
    return Ok([TextCell(parts[0]), TextCell(parts[1]), TextCell(parts[2]), TextCell(parts[3]),
               TextCell(parts[4]), TextCell(parts[5]),
               TextCell(EntitiesOrEmpty(parts[6])), TextCell(EntitiesOrEmpty(parts[7]))]);
  }

  /** The reading of one `behaviors.tsv` line in `load_behaviors_to_staging`. */
  method ParseBehavior(line: string, split: string) returns (r: Result<BehaviorRows, string>)
    ensures r == ParseBehaviorLine(line, split)
  {
    var parts := Fields(line);
    parts := PadFields(parts, 5);
    if |parts| != 5 {
      return Err("too many values to unpack (expected 5)");
    }
    return Ok(BehaviorRows([TextCell(parts[0]), TextCell(parts[1]), TextCell(parts[2]), TextCell(split)],
                           HistoryRows(parts[0], parts[3], split),
                           ImpressionRows(parts[0], parts[4], split)));
  }

  predicate BehaviorsParse(lines: seq<string>)
  {
    forall i :: 0 <= i < |lines| ==> |Fields(lines[i])| <= 5
  }

  /** The rows of a whole file, table by table. */
  datatype Loaded = Loaded(sessions: seq<Row>, history: seq<Row>, impressions: seq<Row>)

  /** The rows of all lines, table by table, in file order. */
  function BehaviorRowsOf(lines: seq<string>, split: string): (r: Loaded)
    requires BehaviorsParse(lines)
    ensures |r.sessions| == |lines|
  {
    if lines == [] then Loaded([], [], [])
    else
      var n := |lines| - 1;
      assert BehaviorsParse(lines[..n]) by {
        assert forall i :: 0 <= i < n ==> lines[..n][i] == lines[i];
      }
      var prev := BehaviorRowsOf(lines[..n], split);
      var line := ParseBehaviorLine(lines[n], split).value;
      Loaded(prev.sessions + [line.session], prev.history + line.history, prev.impressions + line.impressions)
  }

  lemma BehaviorRowsStep(lines: seq<string>, i: nat, split: string)
    requires i < |lines| && BehaviorsParse(lines[..i]) && |Fields(lines[i])| <= 5
    ensures BehaviorsParse(lines[..i + 1])
    ensures var prev, l := BehaviorRowsOf(lines[..i], split), ParseBehaviorLine(lines[i], split).value;
      BehaviorRowsOf(lines[..i + 1], split)
        == Loaded(prev.sessions + [l.session], prev.history + l.history, prev.impressions + l.impressions)
  {
    assert lines[..i + 1][..i] == lines[..i];
    assert lines[..i + 1] == lines[..i] + [lines[i]];
  }

  // ---------------------------------------------------------------------
  // Staging tables and batch loading
  // ---------------------------------------------------------------------

  datatype StagingTable = StgItems | StgSessions | StgImpressions | StgHistory

  /** One COPY statement: its table and how many rows it sent. */
  datatype Copy = Copy(table: StagingTable, rows: nat)

  /** The COPY log `c1` is `c0` followed by COPYs of at least one row. */
  predicate Extends(c0: seq<Copy>, c1: seq<Copy>)
  {
    |c0| <= |c1| && c1[..|c0|] == c0 && forall j :: |c0| <= j < |c1| ==> c1[j].rows > 0
  }

  /** Every COPY of `c1` after the prefix `c0` sent at most `bound` rows. */
  predicate BatchesAtMost(c0: seq<Copy>, c1: seq<Copy>, bound: nat)
  {
    forall j :: |c0| <= j < |c1| ==> c1[j].rows <= bound
  }

  lemma ExtendsTrans(a: seq<Copy>, b: seq<Copy>, c: seq<Copy>, bound: nat)
    requires Extends(a, b) && Extends(b, c)
    ensures Extends(a, c)
    ensures BatchesAtMost(a, b, bound) && BatchesAtMost(b, c, bound) ==> BatchesAtMost(a, c, bound)
  {
    assert c[..|a|] == c[..|b|][..|a|];
    assert forall j :: |a| <= j < |b| ==> c[j] == b[j];
  }

  /** The staging tables, as the text fields COPY has sent them, and the
      log of COPY statements. */
  class Staging {
    var stgItems: seq<seq<string>>
    var stgSessions: seq<seq<string>>
    var stgImpressions: seq<seq<string>>
    var stgHistory: seq<seq<string>>
    var copies: seq<Copy>

    constructor()
      ensures stgItems == [] && stgSessions == [] && stgImpressions == [] && stgHistory == [] && copies == []
    {
      stgItems, stgSessions, stgImpressions, stgHistory, copies := [], [], [], [], [];
    }

    function Table(t: StagingTable): seq<seq<string>>
      reads this
    {
      match t
      case StgItems => stgItems
      case StgSessions => stgSessions
      case StgImpressions => stgImpressions
      case StgHistory => stgHistory
    }

    /** `truncate_staging` */
    method TruncateStaging()
      modifies this
      ensures stgItems == [] && stgSessions == [] && stgImpressions == [] && stgHistory == []
      ensures copies == old(copies)
    {
      stgItems, stgSessions, stgImpressions, stgHistory := [], [], [], [];
    }

    /** `copy_rows`: nothing for no rows; otherwise one COPY appends the
        formatted rows to the table and leaves the others alone. */
    method CopyRows(t: StagingTable, rows: seq<Row>)
      modifies this
      ensures rows == [] ==> Table(t) == old(Table(t)) && copies == old(copies)
      ensures rows != [] ==> Table(t) == old(Table(t)) + FormatRows(rows) && copies == old(copies) + [Copy(t, |rows|)]
      ensures t != StgItems ==> stgItems == old(stgItems)
      ensures t != StgSessions ==> stgSessions == old(stgSessions)
      ensures t != StgImpressions ==> stgImpressions == old(stgImpressions)
      ensures t != StgHistory ==> stgHistory == old(stgHistory)
      ensures Extends(old(copies), copies)
    {
      if rows == [] {
        return;
      }
      var formatted := FormatRows(rows);
      match t {
        case StgItems => stgItems := stgItems + formatted;
        case StgSessions => stgSessions := stgSessions + formatted;
        case StgImpressions => stgImpressions := stgImpressions + formatted;
        case StgHistory => stgHistory := stgHistory + formatted;
      }
      copies := copies + [Copy(t, |rows|)];
    }

    /** What the items load has copied and still buffers are the rows of
        the lines read so far, and the buffer is below BATCH_SIZE. */
    ghost predicate ItemsLoaded(stg0: seq<seq<string>>, rows: seq<Row>, total: nat, done: seq<Row>)
      reads this
    {
      stgItems + FormatRows(rows) == stg0 + FormatRows(done) && total + |rows| == |done| && |rows| < BatchSize
    }

    /** Rows into the buffer of table `t`, then the size check after them:
        a buffer of BATCH_SIZE rows or more is copied, counted and cleared.
        What is copied plus what is buffered grows by exactly `extra`. */
    method Buffer(t: StagingTable, ghost base: seq<seq<string>>, ghost done: seq<Row>,
                  buf: seq<Row>, total: nat, extra: seq<Row>)
      returns (buf': seq<Row>, total': nat)
      requires Table(t) + FormatRows(buf) == base + FormatRows(done) && total + |buf| == |done|
      modifies this
      ensures Table(t) + FormatRows(buf') == base + FormatRows(done + extra) && total' + |buf'| == |done + extra|
      ensures |buf'| < BatchSize
      ensures t != StgItems ==> stgItems == old(stgItems)
      ensures t != StgSessions ==> stgSessions == old(stgSessions)
      ensures t != StgImpressions ==> stgImpressions == old(stgImpressions)
      ensures t != StgHistory ==> stgHistory == old(stgHistory)
      ensures Extends(old(copies), copies)
      ensures |buf| < BatchSize && |extra| <= 1 ==> BatchesAtMost(old(copies), copies, BatchSize)
    {
      FormatRowsAppend(buf, extra);
      FormatRowsAppend(done, extra);
      assert Table(t) + FormatRows(buf + extra) == (Table(t) + FormatRows(buf)) + FormatRows(extra);
      buf', total' := buf + extra, total;
      if |buf'| >= BatchSize {
        CopyRows(t, buf');
        total' := total' + |buf'|;
        buf' := [];
        assert Table(t) + FormatRows(buf') == Table(t);
      }
    }

    /** `load_items_to_staging`: one row per line, copied whenever BATCH_SIZE
        rows are buffered and once more for the rest; the total is the number
        of rows copied. A line with too many fields stops the load. */
    method LoadItemsToStaging(lines: seq<string>) returns (r: Result<nat, string>)
      modifies this
      ensures r.Ok? <==> ItemsParse(lines)
      ensures r.Ok? ==> r.value == |lines| && stgItems == old(stgItems) + FormatRows(ItemRows(lines))
      ensures stgSessions == old(stgSessions) && stgImpressions == old(stgImpressions) && stgHistory == old(stgHistory)
      ensures Extends(old(copies), copies) && BatchesAtMost(old(copies), copies, BatchSize)
    {
      var rows: seq<Row> := [];
      var total: nat := 0;
      for i := 0 to |lines|
        invariant ItemsParse(lines[..i])
        invariant ItemsLoaded(old(stgItems), rows, total, ItemRows(lines[..i]))
        invariant stgSessions == old(stgSessions) && stgImpressions == old(stgImpressions) && stgHistory == old(stgHistory)
        invariant Extends(old(copies), copies) && BatchesAtMost(old(copies), copies, BatchSize)
      {
        var parsed := ParseItem(lines[i]);
        if parsed.Err? {
          return Err(parsed.error);
        }
        ItemRowsSnoc(lines, i);
        ghost var before := copies;
        rows, total := Buffer(StgItems, old(stgItems), ItemRows(lines[..i]), rows, total, [parsed.value]);
        ExtendsTrans(old(copies), before, copies, BatchSize);
      }
      ghost var before := copies;
      if rows != [] {
        CopyRows(StgItems, rows);
        total := total + |rows|;
      }
      ExtendsTrans(old(copies), before, copies, BatchSize);
      assert lines[..|lines|] == lines;
      return Ok(total);
    }

    /** What the behaviours load has copied and still buffers are the rows
        of the lines read so far, table by table, and every buffer is below
        BATCH_SIZE. */
    ghost predicate BehaviorsLoaded(s0: seq<seq<string>>, i0: seq<seq<string>>, h0: seq<seq<string>>,
                                    buffers: Loaded, totals: (nat, nat, nat), done: Loaded)
      reads this
    {
      && stgSessions + FormatRows(buffers.sessions) == s0 + FormatRows(done.sessions)
      && stgImpressions + FormatRows(buffers.impressions) == i0 + FormatRows(done.impressions)
      && stgHistory + FormatRows(buffers.history) == h0 + FormatRows(done.history)
      && totals.0 + |buffers.sessions| == |done.sessions|
      && totals.1 + |buffers.impressions| == |done.impressions|
      && totals.2 + |buffers.history| == |done.history|
      && |buffers.sessions| < BatchSize && |buffers.impressions| < BatchSize && |buffers.history| < BatchSize
    }

    /** One line's rows into the three buffers, and the three size checks
        after them: a buffer of BATCH_SIZE rows or more is copied, counted
        and cleared. */
    method BufferBehavior(ghost s0: seq<seq<string>>, ghost i0: seq<seq<string>>, ghost h0: seq<seq<string>>,
                          ghost done: Loaded, buffers: Loaded, totals: (nat, nat, nat), line: BehaviorRows)
      returns (buffers': Loaded, totals': (nat, nat, nat))
      requires BehaviorsLoaded(s0, i0, h0, buffers, totals, done)
      modifies this
      ensures BehaviorsLoaded(s0, i0, h0, buffers', totals',
        Loaded(done.sessions + [line.session], done.history + line.history, done.impressions + line.impressions))
      ensures stgItems == old(stgItems)
      ensures Extends(old(copies), copies)
    {
      ghost var c0 := copies;
      var sessions, t0 := Buffer(StgSessions, s0, done.sessions, buffers.sessions, totals.0, [line.session]);
      ghost var c1 := copies;
      var impressions, t1 := Buffer(StgImpressions, i0, done.impressions, buffers.impressions, totals.1, line.impressions);
      ghost var c2 := copies;
      ExtendsTrans(c0, c1, c2, 0);
      var history, t2 := Buffer(StgHistory, h0, done.history, buffers.history, totals.2, line.history);
      ExtendsTrans(c0, c2, copies, 0);
      buffers', totals' := Loaded(sessions, history, impressions), (t0, t1, t2);
    }

    /** The loop body of `load_behaviors_to_staging` for line `i`. */
    method StageBehaviorLine(ghost s0: seq<seq<string>>, ghost i0: seq<seq<string>>, ghost h0: seq<seq<string>>,
                             lines: seq<string>, i: nat, split: string, buffers: Loaded, totals: (nat, nat, nat))
      returns (ok: bool, buffers': Loaded, totals': (nat, nat, nat))
      requires i < |lines| && BehaviorsParse(lines[..i])
      requires BehaviorsLoaded(s0, i0, h0, buffers, totals, BehaviorRowsOf(lines[..i], split))
      modifies this
      ensures ok <==> |Fields(lines[i])| <= 5
      ensures ok ==> BehaviorsParse(lines[..i + 1])
      ensures ok ==> BehaviorsLoaded(s0, i0, h0, buffers', totals', BehaviorRowsOf(lines[..i + 1], split))
      ensures stgItems == old(stgItems)
      ensures Extends(old(copies), copies)
    {
      var parsed := ParseBehavior(lines[i], split);
      if parsed.Err? {
        return false, buffers, totals;
      }
      BehaviorRowsStep(lines, i, split);
      buffers', totals' := BufferBehavior(s0, i0, h0, BehaviorRowsOf(lines[..i], split), buffers, totals, parsed.value);
      ok := true;
    }

    /** `load_behaviors_to_staging`: the session, impression and history
        rows of every line, each buffer copied whenever it holds BATCH_SIZE
        rows or more and once more at the end; the totals are the rows
        copied per table. A line with too many fields stops the load. */
    method LoadBehaviorsToStaging(lines: seq<string>, split: string) returns (r: Result<(nat, nat, nat), string>)
      modifies this
      ensures r.Ok? <==> BehaviorsParse(lines)
      ensures r.Ok? ==> var all := BehaviorRowsOf(lines, split);
        stgSessions == old(stgSessions) + FormatRows(all.sessions)
        && stgImpressions == old(stgImpressions) + FormatRows(all.impressions)
        && stgHistory == old(stgHistory) + FormatRows(all.history)
        && r.value == (|all.sessions|, |all.impressions|, |all.history|)
        && r.value.0 == |lines|
      ensures stgItems == old(stgItems)
      ensures Extends(old(copies), copies)
    {
      var buffers := Loaded([], [], []);
      var totals: (nat, nat, nat) := (0, 0, 0);
      for i := 0 to |lines|
        invariant BehaviorsParse(lines[..i])
        invariant BehaviorsLoaded(old(stgSessions), old(stgImpressions), old(stgHistory), buffers, totals,
                                  BehaviorRowsOf(lines[..i], split))
        invariant stgItems == old(stgItems)
        invariant Extends(old(copies), copies)
      {
        ghost var before := copies;
        var ok;
        ok, buffers, totals := StageBehaviorLine(old(stgSessions), old(stgImpressions), old(stgHistory),
                                                 lines, i, split, buffers, totals);
        ExtendsTrans(old(copies), before, copies, 0);
        if !ok {
          return Err("too many values to unpack (expected 5)");
        }
      }
      ghost var before := copies;
      totals := FlushRest(buffers, totals);
      ExtendsTrans(old(copies), before, copies, 0);
      assert lines[..|lines|] == lines;
      return Ok(totals);
    }

    /** The final copies of the non-empty buffers. */
    method FlushRest(buffers: Loaded, totals: (nat, nat, nat)) returns (totals': (nat, nat, nat))
      modifies this
      ensures stgSessions == old(stgSessions) + FormatRows(buffers.sessions)
      ensures stgImpressions == old(stgImpressions) + FormatRows(buffers.impressions)
      ensures stgHistory == old(stgHistory) + FormatRows(buffers.history)
      ensures totals' == (totals.0 + |buffers.sessions|, totals.1 + |buffers.impressions|, totals.2 + |buffers.history|)
      ensures stgItems == old(stgItems)
      ensures Extends(old(copies), copies)
    {
      totals' := totals;
      ghost var c0 := copies;
      CopyRows(StgSessions, buffers.sessions);
      totals' := (totals'.0 + |buffers.sessions|, totals'.1, totals'.2);
      ghost var c1 := copies;
      CopyRows(StgImpressions, buffers.impressions);
      totals' := (totals'.0, totals'.1 + |buffers.impressions|, totals'.2);
      ghost var c2 := copies;
      ExtendsTrans(c0, c1, c2, 0);
      CopyRows(StgHistory, buffers.history);
      totals' := (totals'.0, totals'.1, totals'.2 + |buffers.history|);
      ExtendsTrans(c0, c2, copies, 0);
    }
  }
}
