/**
 * The record-shaping core of `ProductRecommender` (main.py): the text
 * projection and flag rewriting of `_preprocess_data`, the documents of
 * `_create_vector_db`, and the response shaping of `_format_output`,
 * `_parse_test_types` and `recommend_simple`. The embedding provider and the
 * FAISS index are external: the index is kept as its ordered document list
 * and `similarity_search` is a function supplied by the caller.
 */
module Recommender {
  import opened Wrappers
  import opened Text

  /**
   * One DataFrame cell. `Missing` is pandas' NaN; `Float(n)` is a float64 cell
   * holding the whole number n (pandas widens an integer column holding NaN).
   */
  datatype Value = Missing | Str(s: string) | Int(i: int) | Float(whole: int)

  /** What a call raises: a missing column, or `int()` of a value that is not an integer. */
  datatype Error = KeyError(key: string) | ValueError(value: Value)

  type Row = map<string, Value>

  const UrlCol := "url"
  const CombinedCol := "combined_text"
  const AdaptiveCol := "adaptive_irt"
  const RemoteCol := "remote_testing"
  const DescriptionCol := "description"
  const DurationCol := "duration"
  const TestTypeCol := "test_type"

  /** `bool_columns` of `_preprocess_data`, in the order they are rewritten. */
  const FlagColumns := [AdaptiveCol, RemoteCol]

  /** The metadata dict attached to each document. */
  datatype Metadata = Metadata(
    url: Value,
    adaptiveIrt: Value,
    description: Value,
    duration: Value,
    remoteTesting: Value,
    testType: Value)

  datatype Document = Document(pageContent: Value, metadata: Metadata)

  /** The `Assessment` response schema of app.py. */
  datatype Assessment = Assessment(
    url: Value,
    adaptiveSupport: Value,
    description: Value,
    duration: int,
    remoteSupport: Value,
    testType: seq<string>)

  datatype Response = Response(recommendedAssessments: seq<Assessment>)

  /** A DataFrame: distinct column names, and every row has exactly those columns. */
  ghost predicate FrameShape(columns: seq<string>, rows: seq<Row>) {
    (forall i, j :: 0 <= i < j < |columns| ==> columns[i] != columns[j])
    && (forall i :: 0 <= i < |rows| ==> HasColumns(rows[i], columns))
  }

  /** The row's keys are exactly the column names. */
  ghost predicate HasColumns(row: Row, columns: seq<string>) {
    forall c :: c in row <==> c in columns
  }

  /** `str(v)` as `astype(str)` renders a cell. */
  function ToStr(v: Value): string {
    match v
    case Missing => "nan"
    case Str(s) => s
    case Int(n) => IntToString(n)
    case Float(n) => IntToString(n) + ".0"
  }

  /** `int(v)`: `None` where Python raises `ValueError` (NaN, or a string that is not an integer). */
  function ToInt(v: Value): Option<int> {
    match v
    case Missing => None
    case Str(s) => ParseInt(s)
    case Int(n) => Some(n)
    case Float(n) => Some(n)
  }

  // ---------------------------------------------------------------------------
  // Text projection (`_preprocess_data`, first half)

  /** `[col for col in columns if col != 'url']`: every column but `url`, in order. */
  function TextColumns(columns: seq<string>): (r: seq<string>)
    ensures |r| <= |columns|
    ensures forall c :: c in r <==> c in columns && c != UrlCol
  {
    if columns == [] then []
    else (if columns[0] == UrlCol then [] else [columns[0]]) + TextColumns(columns[1..])
  }

  lemma {:induction false} TextColumnsAppend(a: seq<string>, b: seq<string>)
    ensures TextColumns(a + b) == TextColumns(a) + TextColumns(b)
  {
    if a != [] {
      var head := if a[0] == UrlCol then [] else [a[0]];
      assert (a + b)[0] == a[0] && (a + b)[1..] == a[1..] + b;
      TextColumnsAppend(a[1..], b);
      assert TextColumns(a + b) == head + TextColumns(a[1..] + b);
      assert TextColumns(a) == head + TextColumns(a[1..]);
      assert head + (TextColumns(a[1..]) + TextColumns(b)) == (head + TextColumns(a[1..])) + TextColumns(b);
    } else {
      assert a + b == b;
    }
  }

  lemma {:induction false} TextColumnsNoUrl(a: seq<string>)
    requires UrlCol !in a
    ensures TextColumns(a) == a
  {
    if a != [] {
      TextColumnsNoUrl(a[1..]);
      assert [a[0]] + a[1..] == a;
    }
  }

  /** The text columns keep the column order and drop exactly the `url` column. */
  lemma {:induction false} TextColumnsAroundUrl(a: seq<string>, b: seq<string>)
    requires UrlCol !in a && UrlCol !in b
    ensures TextColumns(a + [UrlCol] + b) == a + b
  {
    TextColumnsAppend(a + [UrlCol], b);
    TextColumnsAppend(a, [UrlCol]);
    TextColumnsNoUrl(a);
    TextColumnsNoUrl(b);
    assert TextColumns([UrlCol]) == [] by {
      assert [UrlCol][1..] == [];
    }
    assert TextColumns(a + [UrlCol]) == a by {
      assert a + [] == a;
    }
  }

  /** The string forms of the named cells of a row, in the given order. */
  function Pieces(cols: seq<string>, row: Row): (r: seq<string>)
    requires forall c :: c in cols ==> c in row
    ensures |r| == |cols|
    ensures forall j :: 0 <= j < |cols| ==> r[j] == ToStr(row[cols[j]])
  {
    seq(|cols|, j requires 0 <= j < |cols| => ToStr(row[cols[j]]))
  }

  /** `' '.join(row.values.astype(str))` over the text columns. */
  function CombinedText(columns: seq<string>, row: Row): string
    requires forall c :: c in columns ==> c in row
  {
    Join(" ", Pieces(TextColumns(columns), row))
  }

  /**
   * The combined text lists the text cells in column order: when no cell's
   * text holds a space, splitting it on spaces gives back `str()` of the cell
   * of each text column.
   */
  lemma CombinedTextCells(columns: seq<string>, row: Row)
    requires forall c :: c in columns ==> c in row
    requires TextColumns(columns) != []
    requires forall c :: c in TextColumns(columns) ==> ' ' !in ToStr(row[c])
    ensures var cells := Split(CombinedText(columns, row), ' ');
            |cells| == |TextColumns(columns)|
            && forall j :: 0 <= j < |cells| ==> cells[j] == ToStr(row[TextColumns(columns)[j]])
  {
    var cols := TextColumns(columns);
    var ps := Pieces(cols, row);
    forall i | 0 <= i < |ps|
      ensures ' ' !in ps[i]
    {
      assert cols[i] in cols;
    }
    SplitJoin(ps, ' ');
  }

  /** The `url` value never contributes to the combined text. */
  lemma CombinedTextIgnoresUrl(columns: seq<string>, row: Row, v: Value)
    requires forall c :: c in columns ==> c in row
    ensures CombinedText(columns, row) == CombinedText(columns, row[UrlCol := v])
  {
    var cols := TextColumns(columns);
    assert Pieces(cols, row) == Pieces(cols, row[UrlCol := v]);
  }

  // ---------------------------------------------------------------------------
  // Flag rewriting (`_preprocess_data`, second half)

  /**
   * `replace({1: 'Yes', 0: 'No'})` on one cell: the numbers 1 and 0 (integer or
   * float, as Python's `1.0 == 1`) become "Yes" and "No"; every other value,
   * strings included, is left as it is.
   */
  function RewriteFlag(v: Value): (r: Value)
    ensures r == Str("Yes") <==> v == Int(1) || v == Float(1) || v == Str("Yes")
    ensures r == Str("No") <==> v == Int(0) || v == Float(0) || v == Str("No")
    ensures r != Int(0) && r != Int(1) && r != Float(0) && r != Float(1)
    ensures v != Int(0) && v != Int(1) && v != Float(0) && v != Float(1) ==> r == v
  {
    match v
    case Int(n) => if n == 1 then Str("Yes") else if n == 0 then Str("No") else v
    case Float(n) => if n == 1 then Str("Yes") else if n == 0 then Str("No") else v
    case _ => v
  }

  /** Rewriting a flag twice is the same as rewriting it once. */
  lemma RewriteFlagIdempotent(v: Value)
    ensures RewriteFlag(RewriteFlag(v)) == RewriteFlag(v)
  {
  }

  /** `row` after `replace` has run on each of `cols` that the row has, in order. */
  function RewriteColumns(row: Row, cols: seq<string>): (r: Row)
    ensures r.Keys == row.Keys
    ensures forall c :: c in row && c !in cols ==> r[c] == row[c]
    ensures forall c :: c in row && c in cols ==> r[c] == RewriteFlag(row[c])
  {
    if cols == [] then row
    else
      var prev := RewriteColumns(row, cols[..|cols| - 1]);
      var c := cols[|cols| - 1];
      if c in prev then
        RewriteFlagIdempotent(row[c]);
        prev[c := RewriteFlag(prev[c])]
      else prev
  }

  /**
   * A row after `_preprocess_data`: `combined_text` holds the text built from
   * the row as it was read, before any flag was rewritten; each flag column
   * the row has is rewritten; no other cell changes and no other column appears.
   */
  function PreprocessedRow(columns: seq<string>, row: Row): (r: Row)
    requires forall c :: c in columns ==> c in row
    ensures r.Keys == row.Keys + {CombinedCol}
    ensures r[CombinedCol] == Str(CombinedText(columns, row))
    ensures forall c :: c in FlagColumns && c in row ==> r[c] == RewriteFlag(row[c])
    ensures forall c :: c in row && c != CombinedCol && c !in FlagColumns ==> r[c] == row[c]
  {
    var withText := row[CombinedCol := Str(CombinedText(columns, row))];
    RewriteColumns(withText, FlagColumns)
  }

  /** Rewriting one more flag column extends the rewrite of the columns before it. */
  lemma RewriteStep(row: Row, f: nat)
    requires f < |FlagColumns|
    ensures var cur := RewriteColumns(row, FlagColumns[..f]);
            var c := FlagColumns[f];
            RewriteColumns(row, FlagColumns[..f + 1])
              == if c in cur then cur[c := RewriteFlag(cur[c])] else cur
  {
    assert FlagColumns[..f + 1][..f] == FlagColumns[..f];
  }

  /** `columns` after `df[name] = ...`: unchanged if present, else `name` appended. */
  function WithColumn(columns: seq<string>, name: string): (r: seq<string>)
    ensures name in r
    ensures |r| == |columns| + (if name in columns then 0 else 1)
    ensures r[..|columns|] == columns
    ensures forall c :: c in r <==> c in columns || c == name
  {
    if name in columns then columns else columns + [name]
  }

  /** Adding the combined_text cell to every row keeps the frame's shape. */
  lemma AddColumnShape(columns: seq<string>, rows: seq<Row>, withText: seq<Row>)
    requires FrameShape(columns, rows)
    requires |withText| == |rows|
    requires forall k :: 0 <= k < |rows| ==> withText[k].Keys == rows[k].Keys + {CombinedCol}
    ensures FrameShape(WithColumn(columns, CombinedCol), withText)
  {
    var cols := WithColumn(columns, CombinedCol);
    forall k | 0 <= k < |withText|
      ensures HasColumns(withText[k], cols)
    {
      assert HasColumns(rows[k], columns);
    }
  }

  // ---------------------------------------------------------------------------
  // Documents (`_create_vector_db`)

  /** `row.get(key, default)` */
  function Get(row: Row, key: string, default: Value): Value {
    if key in row then row[key] else default
  }

  /** The columns `_create_vector_db` indexes without a default, in evaluation order. */
  const RequiredColumns := [CombinedCol, UrlCol, DescriptionCol, DurationCol, TestTypeCol]

  /** The first of `keys` that `row` lacks: the key whose lookup raises `KeyError`. */
  function FirstMissing(keys: seq<string>, row: Row): (r: Option<string>)
    ensures r.None? <==> forall c :: c in keys ==> c in row
    ensures r.Some? ==> exists j :: 0 <= j < |keys| && keys[j] == r.value && keys[j] !in row
                          && forall k :: 0 <= k < j ==> keys[k] in row
  {
    if keys == [] then None
    else if keys[0] !in row then Some(keys[0])
    else
      var rest := FirstMissing(keys[1..], row);
      assert forall k :: 1 <= k < |keys| ==> keys[k] == keys[1..][k - 1];
      rest
  }

  /**
   * The `Document` built from one row, or the `KeyError` of the first
   * required column the row lacks. The two flags default to "No".
   */
  function MakeDocument(row: Row): Result<Document, Error> {
    match FirstMissing(RequiredColumns, row)
    case Some(key) => Err(KeyError(key))
    case None =>
      Ok(Document(row[CombinedCol], Metadata(
        row[UrlCol],
        Get(row, AdaptiveCol, Str("No")),
        row[DescriptionCol],
        row[DurationCol],
        Get(row, RemoteCol, Str("No")),
        row[TestTypeCol])))
  }

  /**
   * A row gives a document iff it has every required column; otherwise the
   * error is the `KeyError` of the first required column it lacks.
   */
  lemma MakeDocumentKeys(row: Row)
    ensures MakeDocument(row).Ok? <==> forall c :: c in RequiredColumns ==> c in row
    ensures MakeDocument(row).Err? ==>
              exists j :: 0 <= j < |RequiredColumns| && RequiredColumns[j] !in row
                          && MakeDocument(row).error == KeyError(RequiredColumns[j])
                          && forall k :: 0 <= k < j ==> RequiredColumns[k] in row
  {
  }

  /**
   * A document copies its row's combined text, url, description, duration and
   * test type; each flag is the row's value, or "No" only when its column is absent.
   */
  lemma MakeDocumentFields(row: Row)
    requires MakeDocument(row).Ok?
    ensures var d := MakeDocument(row).value;
            d.pageContent == row[CombinedCol]
            && d.metadata.url == row[UrlCol]
            && d.metadata.description == row[DescriptionCol]
            && d.metadata.duration == row[DurationCol]
            && d.metadata.testType == row[TestTypeCol]
            && d.metadata.adaptiveIrt == (if AdaptiveCol in row then row[AdaptiveCol] else Str("No"))
            && d.metadata.remoteTesting == (if RemoteCol in row then row[RemoteCol] else Str("No"))
  {
  }

  /**
   * The list comprehension of `_create_vector_db`: one document per row, in
   * row order, or the error of the first row that raises.
   */
  function BuildDocuments(rows: seq<Row>): (r: Result<seq<Document>, Error>)
    ensures r.Ok? ==> |r.value| == |rows|
  {
    if rows == [] then Ok([])
    else
      match MakeDocument(rows[0])
      case Err(e) => Err(e)
      case Ok(d) =>
        match BuildDocuments(rows[1..])
        case Err(e) => Err(e)
        case Ok(ds) => Ok([d] + ds)
  }

  /** Building succeeds iff every row gives a document, and then document i comes from row i. */
  lemma {:induction false} BuildDocumentsOk(rows: seq<Row>)
    ensures BuildDocuments(rows).Ok? <==> forall i :: 0 <= i < |rows| ==> MakeDocument(rows[i]).Ok?
    ensures BuildDocuments(rows).Ok? ==>
              forall i :: 0 <= i < |rows| ==> BuildDocuments(rows).value[i] == MakeDocument(rows[i]).value
  {
    if rows != [] {
      BuildDocumentsOk(rows[1..]);
      assert forall k :: 1 <= k < |rows| ==> rows[k] == rows[1..][k - 1];
    }
  }

  /** When row i is the first row without a document, the build fails with row i's error. */
  lemma {:induction false} BuildDocumentsFirstError(rows: seq<Row>, i: int)
    requires 0 <= i < |rows|
    requires forall k :: 0 <= k < i ==> MakeDocument(rows[k]).Ok?
    requires MakeDocument(rows[i]).Err?
    ensures BuildDocuments(rows) == Err(MakeDocument(rows[i]).error)
  {
    if i > 0 {
      assert MakeDocument(rows[0]).Ok?;
      assert forall k :: 0 <= k < i - 1 ==> rows[1..][k] == rows[k + 1];
      BuildDocumentsFirstError(rows[1..], i - 1);
    }
  }

  /**
   * The document of a preprocessed row: its text is the combined text of the
   * row as read, so it shows the flags before rewriting, while its metadata
   * carries the rewritten flags ("No" when the column is absent) and the other
   * fields unchanged.
   */
  lemma PreprocessedDocument(columns: seq<string>, row: Row)
    requires forall c :: c in columns ==> c in row
    requires UrlCol in row && DescriptionCol in row && DurationCol in row && TestTypeCol in row
    ensures var d := MakeDocument(PreprocessedRow(columns, row));
            d.Ok?
            && d.value.pageContent == Str(CombinedText(columns, row))
            && d.value.metadata == Metadata(
                 row[UrlCol],
                 if AdaptiveCol in row then RewriteFlag(row[AdaptiveCol]) else Str("No"),
                 row[DescriptionCol],
                 row[DurationCol],
                 if RemoteCol in row then RewriteFlag(row[RemoteCol]) else Str("No"),
                 row[TestTypeCol])
  {
    var r := PreprocessedRow(columns, row);
    assert UrlCol !in FlagColumns && DescriptionCol !in FlagColumns;
    assert DurationCol !in FlagColumns && TestTypeCol !in FlagColumns;
    assert forall c :: c in RequiredColumns ==> c in r;
  }

  // ---------------------------------------------------------------------------
  // Response shaping (`_parse_test_types`, `_format_output`)

  /** `_parse_test_types`: the stripped comma-separated pieces of a string, and [] for anything else. */
  function ParseTestTypes(v: Value): seq<string> {
    match v
    case Str(s) => StripAll(Split(s, ','))
    case _ => []
  }

  /**
   * A string gives one piece per comma plus one, each stripped and free of
   * commas (empty pieces are kept); anything else (NaN from the CSV reader)
   * gives the empty list.
   */
  lemma ParseTestTypesPieces(v: Value)
    ensures v.Str? ==> |ParseTestTypes(v)| == Count(v.s, ',') + 1
    ensures v.Str? ==> forall i :: 0 <= i < |ParseTestTypes(v)| ==>
              Stripped(ParseTestTypes(v)[i]) && ',' !in ParseTestTypes(v)[i]
    ensures !v.Str? ==> ParseTestTypes(v) == []
  {
    if v.Str? {
      StripSplitPieces(v.s, ',');
    }
  }

  /** One entry of `results`, or the `ValueError` of `int(meta['duration'])`. */
  function ToAssessment(m: Metadata): Result<Assessment, Error> {
    match ToInt(m.duration)
    case None => Err(ValueError(m.duration))
    case Some(n) =>
      Ok(Assessment(m.url, m.adaptiveIrt, m.description, n, m.remoteTesting, ParseTestTypes(m.testType)))
  }

  /**
   * An entry fails with `ValueError` exactly when `int()` rejects the duration;
   * otherwise it carries the parsed duration, the parsed test types and the
   * other fields as stored.
   */
  lemma ToAssessmentFields(m: Metadata)
    ensures ToAssessment(m).Err? <==> ToInt(m.duration).None?
    ensures ToAssessment(m).Err? ==> ToAssessment(m).error == ValueError(m.duration)
    ensures ToAssessment(m).Ok? ==>
              var a := ToAssessment(m).value;
              a.url == m.url && a.adaptiveSupport == m.adaptiveIrt && a.description == m.description
              && a.remoteSupport == m.remoteTesting && ToInt(m.duration) == Some(a.duration)
              && a.testType == ParseTestTypes(m.testType)
  {
  }

  /**
   * The entries `_format_output` builds from `docs`: it succeeds exactly when
   * every duration is an integer, then holds one entry per document in the same
   * order; otherwise it fails with the error of the first bad duration.
   */
  function ShapeAll(docs: seq<Document>): (r: Result<seq<Assessment>, Error>)
    ensures r.Ok? ==> |r.value| == |docs|
  {
    if docs == [] then Ok([])
    else
      var n := |docs| - 1;
      match ShapeAll(docs[..n])
      case Err(e) => Err(e)
      case Ok(prefix) =>
        match ToAssessment(docs[n].metadata)
        case Err(e) => Err(e)
        case Ok(a) => Ok(prefix + [a])
  }

  /** Shaping succeeds iff every duration is an integer. */
  lemma {:induction false} ShapeAllOk(docs: seq<Document>)
    ensures ShapeAll(docs).Ok? <==> forall i :: 0 <= i < |docs| ==> ToInt(docs[i].metadata.duration).Some?
  {
    if docs != [] {
      var n := |docs| - 1;
      var p := docs[..n];
      ShapeAllOk(p);
      assert forall k :: 0 <= k < n ==> p[k] == docs[k];
    }
  }

  /** After a successful shaping, entry i is the assessment of document i. */
  lemma {:induction false} ShapeAllEntries(docs: seq<Document>)
    requires ShapeAll(docs).Ok?
    ensures forall i :: 0 <= i < |docs| ==>
              ToAssessment(docs[i].metadata).Ok? && ShapeAll(docs).value[i] == ToAssessment(docs[i].metadata).value
  {
    if docs != [] {
      var n := |docs| - 1;
      var p := docs[..n];
      ShapeAllEntries(p);
      assert forall k :: 0 <= k < n ==> p[k] == docs[k];
    }
  }

  /** `{"recommended_assessments": results}` or the error raised while building `results`. */
  function FormatSpec(docs: seq<Document>): Result<Response, Error> {
    match ShapeAll(docs)
    case Ok(results) => Ok(Response(results))
    case Err(e) => Err(e)
  }

  /**
   * `_format_output`: appends one entry per document; the first duration that
   * is not an integer aborts the call and no partial list is returned.
   */
  method FormatOutput(docs: seq<Document>) returns (r: Result<Response, Error>)
    ensures r == FormatSpec(docs)
  {
    var results: seq<Assessment> := [];
    var i := 0;
    while i < |docs|
      invariant 0 <= i <= |docs|
      invariant ShapeAll(docs[..i]) == Ok(results)
    {
      var meta := docs[i].metadata;
      var duration := ToInt(meta.duration);
      if duration.None? {
        assert docs[..i + 1][..i] == docs[..i];
        ShapeAllFirstError(docs, i);
        return Err(ValueError(meta.duration));
      }
      results := results + [Assessment(meta.url, meta.adaptiveIrt, meta.description,
                                        duration.value, meta.remoteTesting,
                                        ParseTestTypes(meta.testType))];
      assert docs[..i + 1][..i] == docs[..i];
      i := i + 1;
    }
    assert docs[..i] == docs;
    r := Ok(Response(results));
  }

  /** When every document before `i` shapes and document `i` does not, the whole call fails there. */
  lemma {:induction false} ShapeAllFirstError(docs: seq<Document>, i: nat)
    requires i < |docs|
    requires ShapeAll(docs[..i]).Ok?
    requires ToInt(docs[i].metadata.duration).None?
    ensures ShapeAll(docs) == Err(ValueError(docs[i].metadata.duration))
  {
    var q := docs[..i + 1];
    assert q[..i] == docs[..i] && q[i] == docs[i];
    ShapeAllLastError(q);
    ShapeAllErrorPersists(docs, i + 1);
  }

  /** Once a prefix fails, every longer list fails with the same error. */
  lemma {:induction false} ShapeAllErrorPersists(docs: seq<Document>, m: nat)
    requires m <= |docs|
    requires ShapeAll(docs[..m]).Err?
    ensures ShapeAll(docs) == ShapeAll(docs[..m])
  {
    if m < |docs| {
      var p := docs[..|docs| - 1];
      assert p[..m] == docs[..m];
      ShapeAllErrorPersists(p, m);
      ShapeAllKeepsError(docs);
    } else {
      assert docs[..m] == docs;
    }
  }

  lemma {:induction false} ShapeAllKeepsError(docs: seq<Document>)
    requires docs != [] && ShapeAll(docs[..|docs| - 1]).Err?
    ensures ShapeAll(docs) == ShapeAll(docs[..|docs| - 1])
  {
  }

  lemma {:induction false} ShapeAllLastError(docs: seq<Document>)
    requires docs != [] && ShapeAll(docs[..|docs| - 1]).Ok?
    requires ToInt(docs[|docs| - 1].metadata.duration).None?
    ensures ShapeAll(docs) == Err(ValueError(docs[|docs| - 1].metadata.duration))
  {
  }

  /**
   * Every URL in a successful response is the URL of one of the documents the
   * search returned, and so of the index when the search only returns indexed documents.
   */
  lemma ResponseUrlsFromIndex(index: seq<Document>, hits: seq<Document>)
    requires forall h :: h in hits ==> h in index
    requires FormatSpec(hits).Ok?
    ensures |FormatSpec(hits).value.recommendedAssessments| == |hits|
    ensures forall a :: a in FormatSpec(hits).value.recommendedAssessments ==>
              exists d :: d in index && a.url == d.metadata.url
  {
    var results := FormatSpec(hits).value.recommendedAssessments;
    ShapeAllEntries(hits);
    forall a | a in results
      ensures exists d :: d in index && a.url == d.metadata.url
    {
      var j :| 0 <= j < |results| && results[j] == a;
      assert a == ToAssessment(hits[j].metadata).value;
      assert hits[j] in index;
    }
  }

  // ---------------------------------------------------------------------------
  // The recommender object

  /** `similarity_search(query, k)` of the index, which is external to this model. */
  type Search = (seq<Document>, string, nat) -> seq<Document>

  class ProductRecommender {
    /** Column names of `self.df`, in order. */
    var columns: seq<string>
    /** The rows of `self.df`. */
    var rows: seq<Row>
    /**
     * `self.db`: the indexed documents, or the error `_create_vector_db`
     * raised (the Python constructor then raises and no recommender exists).
     */
    var db: Result<seq<Document>, Error>

    /** `__init__`: takes the frame `pd.read_csv` produced, preprocesses it and indexes it. */
    constructor (csvColumns: seq<string>, csvRows: seq<Row>)
      requires FrameShape(csvColumns, csvRows)
      ensures columns == WithColumn(csvColumns, CombinedCol)
      ensures |rows| == |csvRows|
      ensures forall i :: 0 <= i < |rows| ==> rows[i] == PreprocessedRow(csvColumns, csvRows[i])
      ensures db == BuildDocuments(rows)
    {
      columns := csvColumns;
      rows := csvRows;
      db := Ok([]);
      new;
      Preprocess();
      CreateVectorDb();
    }

    /**
     * `_preprocess_data`: adds the `combined_text` column, computed from the
     * rows as read, then rewrites the flag columns that exist.
     */
    method Preprocess()
      requires FrameShape(columns, rows)
      modifies this
      ensures columns == WithColumn(old(columns), CombinedCol)
      ensures |rows| == |old(rows)|
      ensures forall i :: 0 <= i < |rows| ==> rows[i] == PreprocessedRow(old(columns), old(rows)[i])
      ensures FrameShape(columns, rows)
      ensures db == old(db)
    {
      AddCombinedText();
      ghost var withText := rows;
      RewriteFlagColumns();
      forall i | 0 <= i < |rows|
        ensures rows[i] == PreprocessedRow(old(columns), old(rows)[i])
      {
        assert withText[i] == old(rows)[i][CombinedCol := Str(CombinedText(old(columns), old(rows)[i]))];
      }
    }

    /** The `for col in bool_columns` loop: each flag column the frame has is rewritten in turn. */
    method RewriteFlagColumns()
      requires forall k :: 0 <= k < |rows| ==> HasColumns(rows[k], columns)
      modifies this`rows
      ensures |rows| == |old(rows)|
      ensures forall k :: 0 <= k < |rows| ==> rows[k] == RewriteColumns(old(rows)[k], FlagColumns)
      ensures forall k :: 0 <= k < |rows| ==> HasColumns(rows[k], columns)
    {
      var f := 0;
      while f < |FlagColumns|
        invariant 0 <= f <= |FlagColumns|
        invariant |rows| == |old(rows)|
        invariant forall k :: 0 <= k < |rows| ==> rows[k] == RewriteColumns(old(rows)[k], FlagColumns[..f])
        invariant forall k :: 0 <= k < |rows| ==> HasColumns(rows[k], columns)
      {
        var col := FlagColumns[f];
        if col in columns {
          ReplaceFlags(col);
        }
        forall k | 0 <= k < |rows|
          ensures rows[k] == RewriteColumns(old(rows)[k], FlagColumns[..f + 1])
          ensures HasColumns(rows[k], columns)
        {
          RewriteStep(old(rows)[k], f);
        }
        f := f + 1;
      }
      assert FlagColumns[..|FlagColumns|] == FlagColumns;
    }

    /**
     * `self.df['combined_text'] = ...`: the space-join of the text columns of
     * each row, added as a column (or overwriting one of that name).
     */
    method AddCombinedText()
      requires FrameShape(columns, rows)
      modifies this`columns, this`rows
      ensures columns == WithColumn(old(columns), CombinedCol)
      ensures FrameShape(columns, rows)
      ensures |rows| == |old(rows)|
      ensures forall k :: 0 <= k < |rows| ==>
                rows[k] == old(rows)[k][CombinedCol := Str(CombinedText(old(columns), old(rows)[k]))]
    {
      var textColumns := TextColumns(columns);
      var withText: seq<Row> := [];
      var i := 0;
      while i < |rows|
        invariant 0 <= i <= |rows|
        invariant |withText| == i
        invariant forall k :: 0 <= k < i ==>
                    withText[k] == rows[k][CombinedCol := Str(CombinedText(columns, rows[k]))]
      {
        assert HasColumns(rows[i], columns);
        var text := Join(" ", Pieces(textColumns, rows[i]));
        withText := withText + [rows[i][CombinedCol := Str(text)]];
        i := i + 1;
      }
      AddColumnShape(columns, rows, withText);
      columns := WithColumn(columns, CombinedCol);
      rows := withText;
    }

    /** `self.df[col] = self.df[col].replace({1: 'Yes', 0: 'No'})` for a column every row has. */
    method ReplaceFlags(col: string)
      requires forall k :: 0 <= k < |rows| ==> col in rows[k]
      modifies this`rows
      ensures |rows| == |old(rows)|
      ensures forall k :: 0 <= k < |rows| ==> rows[k] == old(rows)[k][col := RewriteFlag(old(rows)[k][col])]
    {
      var j := 0;
      while j < |rows|
        invariant 0 <= j <= |rows| == |old(rows)|
        invariant forall k :: 0 <= k < j ==> rows[k] == old(rows)[k][col := RewriteFlag(old(rows)[k][col])]
        invariant forall k :: j <= k < |rows| ==> rows[k] == old(rows)[k]
      {
        rows := rows[j := rows[j][col := RewriteFlag(rows[j][col])]];
        j := j + 1;
      }
    }

    /** `_create_vector_db`: the documents of every row; the FAISS build itself is external. */
    method CreateVectorDb()
      modifies this`db
      ensures db == BuildDocuments(rows)
    {
      db := BuildDocuments(rows);
    }

    /**
     * `recommend_simple`: the documents the search returns for `query`,
     * shaped by `_format_output`.
     */
    method RecommendSimple(query: string, k: nat, search: Search) returns (r: Result<Response, Error>)
      requires db.Ok?
      ensures r == FormatSpec(search(db.value, query, k))
    {
      var hits := search(db.value, query, k);
      r := FormatOutput(hits);
    }
  }
}
