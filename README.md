# SHL catalog recommender: record shaping, modelled in Dafny

The repository scrapes SHL's product catalog, stores the assessments in a CSV
file, embeds each row with OpenAI embeddings into a FAISS index and serves
"similar assessment" queries. This model covers the deterministic logic
between those services:

- `scrape_table` (Extractlinks.py) turns the `tr` rows of one catalog table
  into flat assessment records (module `Extract`, file `extract.dfy`). The
  BeautifulSoup nodes are modelled abstractly. A row is a sequence of cells.
  A cell has its first anchor (text and optional `href`), a flag for the
  "yes" circle, and the texts of its key spans.
- `ProductRecommender` (main.py) is a class with the DataFrame (`columns`,
  `rows`) and the index (`db`) as fields (module `Recommender`, file
  `recommender.dfy`). `_preprocess_data` adds the `combined_text` column and
  rewrites the 1/0 flags. `_create_vector_db` builds one document per row.
  `_format_output` and `_parse_test_types` shape the retrieved documents into
  the `Assessment` records of app.py. `recommend_simple` applies that shaping
  to what the similarity search returns.
- Python's `str.strip`, `str.join`, `str.split`, `str(int)` and `int(str)`
  are modelled in module `Text` (`text.dfy`). `Option` and `Result` are in
  `wrappers.dfy`.
- Module `Pipeline` (`pipeline.dfy`) follows one scraped record through the
  CSV file and the recommender. `pd.read_csv` is modelled only as far as its
  default NA tokens: a stored `"N/A"` comes back as NaN, which is not a
  string.

Cells of the DataFrame are `Value`s. `Missing` is NaN, and `Str`, `Int` and
`Float(n)` are the other cell kinds. `Float(n)` is a float cell holding the
whole number n: pandas makes an integer column with NaN into a float column.
Exceptions are `Err` results: `KeyError` for a missing column, and
`ValueError` for an `int()` that fails.

Behaviour of the code worth noting:
- `_parse_test_types` keeps empty pieces, so the string `""` gives `[""]`,
  not `[]`.
- The combined text is built before the flags are rewritten. A flag stored as
  1/0 therefore appears as that number in the embedded text, not as "Yes"/"No"
  (as `1.0`/`0.0` when the column is a float column).
- Only the numbers 1 and 0 are rewritten to "Yes"/"No". Other flag values go
  through unchanged.
- A missing description reaches the output as NaN, not as an empty string.
- Nothing in the code rejects an empty catalog.

## Model

The operations are defined as functions, and their properties are stated by
the lemmas in the table that mention them:
- `Extract.Records` and `Extract.ScrapeSpec` (Extractlinks.py:17-49):
  `RecordsFollowRows`, `LongRowsOrdered`, `RecordsAtMostRows`, `RecordFields`,
  `HeaderIgnored`, and the loop `ScrapeTable`.
- `Text.Strip` (Python's `str.strip`): `StripIsSlice`, `StripStrippedResult`,
  `StripIdempotent`. `Text.StripAll` (a list of stripped strings): `StripAllAt`.
- `Text.Split` and `Text.Join` (`str.split`, `str.join`): `SplitPieces`,
  `JoinSplit`, `SplitJoin`, `CommaSpaceRoundTrip`.
- `Text.IntToString` and `Text.ParseInt` (`str(int)`, `int(str)`):
  `ParseIntToString`, `ParseIntKeepsSeparators`, `ParseIntSkipsSpaces`.
- `Recommender.ToStr` and `Recommender.CombinedText` (main.py:27-31):
  `CombinedTextCells`, `CombinedTextIgnoresUrl`, `PreprocessedRow`.
- `Recommender.ToInt` and `Recommender.ToAssessment` (main.py:60-68):
  `ToAssessmentFields`.
- `Recommender.MakeDocument` and `Recommender.BuildDocuments` (main.py:41-53):
  `MakeDocumentKeys`, `MakeDocumentFields`, `BuildDocumentsOk`,
  `BuildDocumentsFirstError`, `PreprocessedDocument`.
- `Recommender.ParseTestTypes` (main.py:71-75): `ParseTestTypesPieces`.
- `Recommender.ShapeAll` and `Recommender.FormatSpec` (main.py:56-69):
  `ShapeAllOk`, `ShapeAllEntries`, `ShapeAllFirstError`,
  `ShapeAllErrorPersists`, and the loop `FormatOutput`.

| member | source | states |
|---|---|---|
| Extract.NameOf | Extractlinks.py:24-26 | The name is "Unknown" without an anchor, and otherwise the stripped anchor text |
| Extract.HrefOf | Extractlinks.py:27 | The link is the anchor's href, or "" when the anchor or its href is missing |
| Extract.FlagOf | Extractlinks.py:29-33 | A flag is exactly "Yes" or "No", and it is "Yes" iff the cell has the yes-circle |
| Extract.TestTypeOf | Extractlinks.py:35-37 | The test type is "N/A" without key spans, and otherwise the stripped key texts joined by ", " |
| Extract.RecordOf | Extractlinks.py:24-49 | A record's fields come from cells 0-3; the url is the site origin plus the href, and exactly the origin without an href; duration is "N/A" |
| Extract.LongRows | Extractlinks.py:19-22 | Only rows with at least 4 cells are listed as producing records |
| Extract.LongRowsOrdered | Extractlinks.py:19-22 | The listed rows are in increasing order, and every row with at least 4 cells is listed |
| Extract.RecordsFollowRows | Extractlinks.py:19-49 | There is one record per row with at least 4 cells, and the j-th record comes from the j-th such row (same relative order) |
| Extract.RecordsAtMostRows | Extractlinks.py:19-22 | There are never more records than rows |
| Extract.RecordFields | Extractlinks.py:29-49 | Every record has "Yes"/"No" flags, a url starting with https://www.shl.com, and duration "N/A" |
| Extract.HeaderIgnored | Extractlinks.py:17 | The first row never contributes: replacing it leaves the result unchanged |
| Extract.ScrapeTable | Extractlinks.py:14-51 | The loop skips the header and the short rows and appends records in order; the result equals the specification and has at most one record per non-header row |
| Text.StripIsSlice | Extractlinks.py:26 | strip() returns a slice of the input, and only whitespace was cut away on either side |
| Text.StripStrippedResult | Extractlinks.py:26 | The result of strip() has no whitespace at either end |
| Text.StripIdempotent | main.py:74 | Stripping twice is the same as stripping once |
| Text.SplitPieces | main.py:74 | split(',') gives one more piece than there are commas, and no piece contains a comma |
| Text.JoinSplit | main.py:74 | Joining the pieces of split(c) with c gives back the string |
| Text.SplitJoin | main.py:74 | split(c) after c.join gives back a non-empty list of comma-free pieces |
| Text.CommaSpaceRoundTrip | Extractlinks.py:37 | For a non-empty list of stripped, comma-free keys, ", ".join then split(',') and strip give back the keys |
| Text.ParseIntToString | main.py:65 | int(str(n)) == n for every integer n |
| Text.ParseIntKeepsSeparators | main.py:65 | int() rejects a number preceded by U+001C, a character that strip() removes |
| Text.ParseIntSkipsSpaces | main.py:65 | int() skips ASCII spaces, tabs and line breaks around the number |
| Text.StripAllAt | main.py:74 | Element i of the stripped list is the stripped element i |
| Recommender.TextColumns | main.py:27 | The text columns are exactly the columns other than url |
| Recommender.TextColumnsAroundUrl | main.py:27 | Removing url keeps the other columns in their order: columns a + [url] + b give a + b |
| Recommender.CombinedTextCells | main.py:27-31 | When no cell text holds a space, splitting the combined text on spaces gives str() of each text column's cell, in column order |
| Recommender.CombinedTextIgnoresUrl | main.py:27-31 | The combined text does not depend on the url value |
| Recommender.RewriteFlag | main.py:36 | 1 and 0 become "Yes" and "No"; no 1/0 number is left; every other value, numbers included, is unchanged |
| Recommender.RewriteFlagIdempotent | main.py:33-36 | Rewriting a flag twice equals rewriting it once |
| Recommender.RewriteColumns | main.py:33-36 | Rewriting flag columns keeps the row's keys, rewrites each listed column the row has by replace(), and changes no other cell |
| Recommender.PreprocessedRow | main.py:25-36 | A preprocessed row gains combined_text, built from the row before flag rewriting; each present flag column is rewritten; every other cell is unchanged |
| Recommender.WithColumn | main.py:29 | Assigning combined_text keeps the existing columns in order and appends that one column at the end, unless it already exists |
| Recommender.FirstMissing | main.py:43-50 | Gives the first key the row lacks, so that lookup raises KeyError; gives none iff every key is present |
| Recommender.MakeDocumentKeys | main.py:42-52 | A row gives a document iff it has combined_text, url, description, duration and test_type, and otherwise fails with the KeyError of the first missing one |
| Recommender.MakeDocumentFields | main.py:42-52 | Each metadata field is copied from the row; the flags default to "No" only when their column is absent |
| Recommender.BuildDocumentsOk | main.py:41-53 | Building succeeds iff every row gives a document, and then document i is the document of row i |
| Recommender.BuildDocumentsFirstError | main.py:41-53 | When row i is the first row without a document, the build fails with row i's error |
| Recommender.PreprocessedDocument | main.py:29-52 | A preprocessed row's document has the pre-rewrite combined text as content and the rewritten flags (or "No") in its metadata |
| Recommender.ParseTestTypesPieces | main.py:71-75 | A string gives count(',') + 1 stripped, comma-free pieces; a non-string gives [] |
| Recommender.ToAssessmentFields | main.py:60-68 | Fails with ValueError iff int(duration) fails; otherwise maps url, adaptive_irt, description, remote_testing unchanged, parses duration and test_type |
| Recommender.ShapeAllOk | main.py:58-68 | Shaping succeeds iff every duration is an integer |
| Recommender.ShapeAllEntries | main.py:58-68 | After a successful shaping, entry i is the assessment of document i |
| Recommender.FormatOutput | main.py:56-69 | The appending loop gives the shaped list under recommended_assessments, or the first error, with no partial list |
| Recommender.ShapeAllFirstError | main.py:65 | If the documents before i shape and document i does not, the whole call fails with document i's error |
| Recommender.ShapeAllErrorPersists | main.py:58-68 | Once a prefix of the documents fails, the whole list fails with the same error |
| Recommender.ResponseUrlsFromIndex | main.py:117-120 | A successful response has one entry per hit, and each url is the url of an indexed document |
| Recommender.ProductRecommender.constructor | main.py:15-23 | After construction the frame is preprocessed row by row and db holds the documents of the preprocessed rows (or the build error) |
| Recommender.ProductRecommender.Preprocess | main.py:25-36 | The columns gain combined_text, and every row becomes its preprocessed form; db is unchanged |
| Recommender.ProductRecommender.AddCombinedText | main.py:29-31 | Each row gains combined_text computed from that row as it was |
| Recommender.AddColumnShape | main.py:29-31 | Adding combined_text to every row keeps the frame's shape: the rows' keys are the new column list |
| Recommender.ProductRecommender.RewriteFlagColumns | main.py:33-36 | Each flag column the frame has is rewritten in turn, and row keys are kept |
| Recommender.ProductRecommender.ReplaceFlags | main.py:36 | replace() rewrites one column in every row and nothing else |
| Recommender.ProductRecommender.CreateVectorDb | main.py:39-54 | db holds the documents built from the current rows |
| Recommender.ProductRecommender.RecommendSimple | main.py:117-120 | The result is the search hits for (query, k) on the index, shaped by _format_output |
| Pipeline.ReadCsvText | main.py:20 | A stored text is read as NaN iff it is one of pandas' default NA tokens, and otherwise as itself |
| Pipeline.TestTypeRoundTrip | Extractlinks.py:35-37 | A scraped test type read from CSV and parsed gives the stripped key texts: [] for "N/A", else the keys (comma-free once stripped, a single key not an NA token) |
| Pipeline.UrlNotNaToken | Extractlinks.py:44 | A scraped url is never read back as NaN |
| Pipeline.ScrapedRecordRecommended | Extractlinks.py:42-49 | A scraped record, stored and retrieved, gives back its url, its "Yes"/"No" flags, the duration (stored as an integer, or as a float when the column holds NaN), the description and the stripped keys |
| Pipeline.TwoKeysParsed | main.py:71-75 | "K, P" parses to ["K", "P"] |
| Pipeline.OneRecordResponse | main.py:56-75 | A retrieved document with duration 40 and test type "K, P" gives the expected single-entry response |

## Left out

- `scrape_pages_for_type`, `scrape_shl_catalog` and `fetch_assessment_details`
  (Extractlinks.py:53-141) are left out. They do HTTP requests, `time.sleep`,
  and detail-page scraping in a thread pool that mutates shared dicts. Their
  effect on a record (a duration and a description) is a parameter of
  `Pipeline.ScrapedRecordRecommended`.
- The duration regex of `fetch_assessment_details` is not modelled (Python
  regex semantics).
- `save_to_csv` and `pd.read_csv` are file I/O. The model takes the frame as
  the constructor's input. Only the NA-token reading of text fields is
  modelled, not pandas' dtype inference (numeric or boolean columns).
- BeautifulSoup's `find`/`find_all` are abstracted into the cell datatype
  (first anchor, yes-circle present, key span texts in document order).
- OpenAI embeddings, `FAISS.from_documents` and `similarity_search` are
  external. The index is kept as its document list. The search is a
  function parameter of `RecommendSimple`. Its ranking, the default `k = 5`
  and "at most k results" belong to that search. Failures of the embedding
  service are not modelled.
- Behaviour on an empty catalog is decided inside pandas and FAISS. The model
  builds an empty document list.
- `llm_enhanced_recommendation` (LLM prompting and `json.loads` of model
  output) is not modelled.
- app.py is left out: routing, CORS, and pydantic validation of the response.
  The model's `Assessment` keeps each field as the cell value it was given.
  The check that they are strings happens in pydantic, which is not modelled.
- Text.ParseInt: `int()` on strings accepts whitespace, a sign and ASCII
  digits. The whitespace is `str.isspace`'s set without U+001C..U+001F, as
  CPython skips it. Underscore digit grouping and non-ASCII digits are not
  modelled.
- Recommender.ToStr: floats are modelled only as whole numbers (`Float(n)`
  prints as `n.0`). Durations are always whole minutes, so `int()` on a
  fractional float (which truncates) is not modelled. Whole floats of 1e16
  and above, which Python prints in exponent form (`1e+16`), are not modelled.
- Recommender.CombinedText: each cell is formatted by its own kind. pandas
  passes `apply(axis=1)` a row Series of the text columns' common dtype. When
  every text column is numeric and one is a float column, integer cells are
  upcast and print as `3.0` rather than `3`. The model does not capture this
  upcast. The catalog always has string columns (`name`, `test_type`), so its
  rows are object-typed and keep each cell's own kind.
- Recommender.RewriteFlag: pandas booleans (`True == 1`) are not a cell kind
  in the model.
- Frames with duplicate column names are excluded by `FrameShape`.
