/**
 * `scrape_table` of Extractlinks.py: one catalog table (a sequence of `tr`
 * rows, each a sequence of `td` cells) becomes a list of flat records. HTML
 * nodes are abstracted to what the function looks at in each cell.
 */
module Extract {
  import opened Wrappers
  import opened Text

  /** The first `a` element of a cell: its text and its `href` attribute, if any. */
  datatype Anchor = Anchor(text: string, href: Option<string>)

  /**
   * A `td` cell as `scrape_table` sees it: its first anchor, whether it holds a
   * `span.catalogue__circle.-yes`, and the texts of its
   * `span.product-catalogue__key` elements in document order.
   */
  datatype Cell = Cell(anchor: Option<Anchor>, hasYesCircle: bool, keys: seq<string>)

  type Row = seq<Cell>

  /** One assessment dict as appended to `assessments`. */
  datatype Record = Record(
    name: string,
    url: string,
    duration: string,
    testType: string,
    remoteTesting: string,
    adaptiveIrt: string)

  const SiteOrigin := "https://www.shl.com"

  /** Rows with fewer than four cells are skipped. */
  predicate IsLong(row: Row) {
    |row| >= 4
  }

  function NameOf(cell: Cell): (r: string)
    ensures cell.anchor.None? ==> r == "Unknown"
    ensures cell.anchor.Some? ==> r == Strip(cell.anchor.value.text)
  {
    match cell.anchor
    case None => "Unknown"
    case Some(a) => Strip(a.text)
  }

  /** The relative link of a cell: the anchor's `href`, or "" when either is missing. */
  function HrefOf(cell: Cell): (r: string)
    ensures (cell.anchor.None? || cell.anchor.value.href.None?) ==> r == ""
    ensures cell.anchor.Some? && cell.anchor.value.href.Some? ==> r == cell.anchor.value.href.value
  {
    if cell.anchor.Some? && cell.anchor.value.href.Some? then cell.anchor.value.href.value else ""
  }

  function FlagOf(cell: Cell): (r: string)
    ensures r == "Yes" || r == "No"
    ensures r == "Yes" <==> cell.hasYesCircle
  {
    if cell.hasYesCircle then "Yes" else "No"
  }

  /** "N/A" without key spans, else the stripped key texts joined by ", ". */
  function TestTypeOf(cell: Cell): (r: string)
    ensures cell.keys == [] ==> r == "N/A"
    ensures cell.keys != [] ==> r == Join(", ", StripAll(cell.keys))
  {
    if cell.keys == [] then "N/A" else Join(", ", StripAll(cell.keys))
  }

  /** The record a row of four or more cells produces. */
  function RecordOf(row: Row): (r: Record)
    requires IsLong(row)
    ensures r.name == NameOf(row[0])
    ensures r.url == SiteOrigin + HrefOf(row[0])
    ensures (row[0].anchor.None? || row[0].anchor.value.href.None?) ==> r.url == SiteOrigin
    ensures r.remoteTesting == FlagOf(row[1]) && r.adaptiveIrt == FlagOf(row[2])
    ensures r.testType == TestTypeOf(row[3])
    ensures r.duration == "N/A"
  {
    Record(NameOf(row[0]), SiteOrigin + HrefOf(row[0]), "N/A",
           TestTypeOf(row[3]), FlagOf(row[1]), FlagOf(row[2]))
  }

  /** The records of the rows `body`, skipping short rows (the specification of the loop). */
  function Records(body: seq<Row>): seq<Record> {
    if body == [] then []
    else
      var last := body[|body| - 1];
      Records(body[..|body| - 1]) + (if IsLong(last) then [RecordOf(last)] else [])
  }

  /** `scrape_table` as a function: the header row is dropped, then `Records`. */
  function ScrapeSpec(table: seq<Row>): seq<Record> {
    if table == [] then [] else Records(table[1..])
  }

  /**
   * Indices of the rows of `body` that produce a record: only rows of four
   * or more cells are listed (`LongRowsOrdered` adds order and completeness).
   */
  function LongRows(body: seq<Row>): (idx: seq<nat>)
    ensures forall j :: 0 <= j < |idx| ==> idx[j] < |body| && IsLong(body[idx[j]])
  {
    if body == [] then []
    else
      var n := |body| - 1;
      var prev := LongRows(body[..n]);
      assert forall j :: 0 <= j < |prev| ==> body[..n][prev[j]] == body[prev[j]];
      prev + (if IsLong(body[n]) then [n] else [])
  }

  /** The listed rows are in increasing order, and every row of four or more cells is listed. */
  lemma {:induction false} LongRowsOrdered(body: seq<Row>)
    ensures forall j, k :: 0 <= j < k < |LongRows(body)| ==> LongRows(body)[j] < LongRows(body)[k]
    ensures forall i :: 0 <= i < |body| && IsLong(body[i]) ==> i in LongRows(body)
  {
    if body != [] {
      var n := |body| - 1;
      var p := body[..n];
      LongRowsOrdered(p);
      assert LongRows(body) == LongRows(p) + (if IsLong(body[n]) then [n] else []);
      forall i | 0 <= i < n && IsLong(body[i])
        ensures i in LongRows(body)
      {
        assert p[i] == body[i];
      }
    }
  }

  /**
   * Records come out one per long row and in row order: the j-th record is
   * the record of the j-th long row.
   */
  lemma {:induction false} RecordsFollowRows(body: seq<Row>)
    ensures |Records(body)| == |LongRows(body)|
    ensures forall j :: 0 <= j < |LongRows(body)| ==>
              Records(body)[j] == RecordOf(body[LongRows(body)[j]])
  {
    if body != [] {
      var n := |body| - 1;
      var p := body[..n];
      RecordsFollowRows(p);
      var prev := LongRows(p);
      var tail := if IsLong(body[n]) then [RecordOf(body[n])] else [];
      assert Records(body) == Records(p) + tail;
      assert LongRows(body) == prev + (if IsLong(body[n]) then [n] else []);
      forall j | 0 <= j < |prev|
        ensures Records(body)[j] == RecordOf(body[LongRows(body)[j]])
      {
        assert p[prev[j]] == body[prev[j]];
      }
    }
  }

  /** There are never more records than rows. */
  lemma RecordsAtMostRows(body: seq<Row>)
    ensures |Records(body)| <= |body|
  {
    RecordsFollowRows(body);
    LongRowsOrdered(body);
    var idx := LongRows(body);
    IncreasingBelow(idx, |body|);
  }

  /** A strictly increasing sequence of naturals below `n` has at most `n` elements. */
  lemma {:induction false} IncreasingBelow(idx: seq<nat>, n: nat)
    requires forall j :: 0 <= j < |idx| ==> idx[j] < n
    requires forall j, k :: 0 <= j < k < |idx| ==> idx[j] < idx[k]
    ensures |idx| <= n
  {
    if idx != [] {
      var m := idx[|idx| - 1];
      IncreasingBelow(idx[..|idx| - 1], m);
    }
  }

  /** Every record has "Yes"/"No" flags, a URL on the site origin and an "N/A" duration. */
  lemma RecordFields(body: seq<Row>)
    ensures forall r :: r in Records(body) ==>
              (r.remoteTesting == "Yes" || r.remoteTesting == "No")
              && (r.adaptiveIrt == "Yes" || r.adaptiveIrt == "No")
              && SiteOrigin <= r.url
              && r.duration == "N/A"
  {
    RecordsFollowRows(body);
    var idx := LongRows(body);
    forall r | r in Records(body)
      ensures (r.remoteTesting == "Yes" || r.remoteTesting == "No")
              && (r.adaptiveIrt == "Yes" || r.adaptiveIrt == "No")
              && SiteOrigin <= r.url
              && r.duration == "N/A"
    {
      var j :| 0 <= j < |Records(body)| && Records(body)[j] == r;
      assert r == RecordOf(body[idx[j]]);
    }
  }

  /** The header row never contributes: replacing it leaves the records unchanged. */
  lemma HeaderIgnored(table: seq<Row>, header: Row)
    requires table != []
    ensures ScrapeSpec(table) == ScrapeSpec([header] + table[1..])
  {
    assert ([header] + table[1..])[1..] == table[1..];
  }

  /**
   * The loop of `scrape_table`: skip the header, skip rows with fewer than
   * four cells, append one record per remaining row.
   */
  method ScrapeTable(table: seq<Row>) returns (assessments: seq<Record>)
    ensures assessments == ScrapeSpec(table)
    ensures |assessments| <= if table == [] then 0 else |table| - 1
  {
    assessments := [];
    if table == [] {
      return;
    }
    var rows := table[1..];
    var i := 0;
    while i < |rows|
      invariant 0 <= i <= |rows|
      invariant assessments == Records(rows[..i])
    {
      var row := rows[i];
      assert rows[..i + 1][..i] == rows[..i];
      i := i + 1;
      if |row| < 4 {
        continue;
      }
      assessments := assessments + [RecordOf(row)];
    }
    assert rows[..i] == rows;
    RecordsAtMostRows(rows);
  }
}
