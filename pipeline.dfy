/**
 * How a scraped record reaches the recommender: `save_to_csv` writes the
 * records and `pd.read_csv` reads them back, turning pandas' default NA
 * tokens into NaN. These lemmas follow one record from `scrape_table`
 * through preprocessing, document construction and response shaping.
 */
module Pipeline {
  import opened Wrappers
  import opened Text
  import opened Extract
  import opened Recommender

  /** The strings `pd.read_csv` reads as NaN by default. */
  const NaTokens: set<string> := {
    "", "#N/A", "#N/A N/A", "#NA", "-1.#IND", "-1.#QNAN", "-NaN", "-nan",
    "1.#IND", "1.#QNAN", "<NA>", "N/A", "NA", "NULL", "NaN", "None", "n/a", "nan", "null"
  }

  /** A text field as `pd.read_csv` returns it: NaN for an NA token, the string otherwise. */
  function ReadCsvText(s: string): (v: Value)
    ensures v.Missing? <==> s in NaTokens
    ensures v.Str? ==> v.s == s
  {
    if s in NaTokens then Missing else Str(s)
  }

  /** No NA token is longer than eight characters or contains a comma. */
  lemma NaTokenShape(t: string)
    requires t in NaTokens
    ensures |t| <= 8 && ',' !in t
  {
  }

  /** Joining two or more pieces with ", " leaves a comma in the result. */
  lemma {:induction false} JoinedHasComma(xs: seq<string>)
    requires |xs| >= 2
    ensures ',' in Join(", ", xs)
  {
    var rest := Join(", ", xs[1..]);
    assert Join(", ", xs) == xs[0] + ", " + rest;
    assert Join(", ", xs)[|xs[0]|] == ',';
  }

  /**
   * The test types of a scraped row survive the CSV file and
   * `_parse_test_types`: the parsed list is the row's stripped key texts. With
   * no key spans the scraper writes "N/A", which is read back as NaN and parsed
   * to `[]`. Otherwise the keys must be comma-free once stripped, and a single
   * key must not itself be an NA token (the empty key is one).
   */
  lemma {:induction false} TestTypeRoundTrip(row: Extract.Row)
    requires IsLong(row)
    requires forall i :: 0 <= i < |row[3].keys| ==>
               ',' !in Strip(row[3].keys[i])
    requires |row[3].keys| == 1 ==> Strip(row[3].keys[0]) !in NaTokens
    ensures ParseTestTypes(ReadCsvText(RecordOf(row).testType)) == StripAll(row[3].keys)
  {
    var keys := row[3].keys;
    var stripped := StripAll(keys);
    var written := RecordOf(row).testType;
    if keys == [] {
      assert written == "N/A";
    } else {
      assert written == Join(", ", stripped);
      forall i | 0 <= i < |stripped|
        ensures Stripped(stripped[i]) && ',' !in stripped[i]
      {
        StripAllAt(keys, i);
        StripStrippedResult(keys[i]);
      }
      if |stripped| == 1 {
        StripAllAt(keys, 0);
        assert written == stripped[0];
      } else {
        JoinedHasComma(stripped);
        if written in NaTokens {
          NaTokenShape(written);
        }
      }
      CommaSpaceRoundTrip(stripped);
    }
  }

  /**
   * `csvRow` is how `pd.read_csv` returns a stored record: the scraped text
   * fields as `ReadCsvText` reads them, and the detail-page duration and
   * description. The duration is an integer cell, or a float cell when some
   * other row's "N/A" made pandas widen the column.
   */
  predicate StoredRecord(csvRow: Recommender.Row, r: Record, duration: int, description: Value) {
    UrlCol in csvRow && csvRow[UrlCol] == ReadCsvText(r.url)
    && TestTypeCol in csvRow && csvRow[TestTypeCol] == ReadCsvText(r.testType)
    && RemoteCol in csvRow && csvRow[RemoteCol] == ReadCsvText(r.remoteTesting)
    && AdaptiveCol in csvRow && csvRow[AdaptiveCol] == ReadCsvText(r.adaptiveIrt)
    && DurationCol in csvRow && (csvRow[DurationCol] == Int(duration) || csvRow[DurationCol] == Float(duration))
    && DescriptionCol in csvRow && csvRow[DescriptionCol] == description
  }

  /**
   * A scraped row, stored with a duration and description, is recommended
   * back as an assessment carrying the scraped URL and "Yes"/"No" flags
   * unchanged, the duration, the description, and the stripped key texts.
   */
  lemma {:induction false} ScrapedRecordRecommended(
    row: Extract.Row, columns: seq<string>, csvRow: Recommender.Row, duration: int, description: Value)
    requires IsLong(row)
    requires forall i :: 0 <= i < |row[3].keys| ==>
               ',' !in Strip(row[3].keys[i])
    requires |row[3].keys| == 1 ==> Strip(row[3].keys[0]) !in NaTokens
    requires forall c :: c in columns ==> c in csvRow
    requires StoredRecord(csvRow, RecordOf(row), duration, description)
    ensures var rec := RecordOf(row);
            var frameRow := PreprocessedRow(columns, csvRow);
            MakeDocument(frameRow).Ok?
            && ToAssessment(MakeDocument(frameRow).value.metadata)
               == Ok(Assessment(Str(rec.url), Str(rec.adaptiveIrt), description, duration,
                                Str(rec.remoteTesting), StripAll(row[3].keys)))
  {
    var rec := RecordOf(row);
    UrlNotNaToken(rec.url);
    FlagNotNaToken(rec.adaptiveIrt);
    FlagNotNaToken(rec.remoteTesting);
    PreprocessedDocument(columns, csvRow);
    TestTypeRoundTrip(row);
  }

  lemma UrlNotNaToken(url: string)
    requires SiteOrigin <= url
    ensures url !in NaTokens
  {
    if url in NaTokens {
      NaTokenShape(url);
    }
  }

  lemma FlagNotNaToken(f: string)
    requires f == "Yes" || f == "No"
    ensures f !in NaTokens
  {
  }

  /** `_parse_test_types("K, P") == ["K", "P"]` */
  lemma TwoKeysParsed()
    ensures ParseTestTypes(Str("K, P")) == ["K", "P"]
  {
    var keys := ["K", "P"];
    assert Join(", ", keys) == "K, P";
    assert Stripped("K") && Stripped("P");
    CommaSpaceRoundTrip(keys);
  }

  /** The example of a one-record catalog: a retrieved document with test types "K, P". */
  lemma OneRecordResponse()
    ensures var doc := Document(Str("Java coding test ..."), Metadata(
              Str("http://x/1"), Str("No"), Str("Java coding test"), Int(40), Str("Yes"), Str("K, P")));
            FormatSpec([doc]) == Ok(Response([Assessment(
              Str("http://x/1"), Str("No"), Str("Java coding test"), 40, Str("Yes"), ["K", "P"])]))
  {
    TwoKeysParsed();
    var doc := Document(Str("Java coding test ..."), Metadata(
      Str("http://x/1"), Str("No"), Str("Java coding test"), Int(40), Str("Yes"), Str("K, P")));
    var a := Assessment(Str("http://x/1"), Str("No"), Str("Java coding test"), 40, Str("Yes"), ["K", "P"]);
    assert ToAssessment(doc.metadata) == Ok(a);
    assert [doc][..0] == [];
    assert [] + [a] == [a];
  }
}
