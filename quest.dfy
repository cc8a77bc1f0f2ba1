/**
 * `ingest/quest_egfr_parser.py`: Quest's CSV export to eGFR records.
 *
 * Every row the CSV reader yields is tested by an eGFR predicate on its
 * test code and name; a selected row with a usable numeric result becomes
 * one record with the standard LOINC code, a selected row without one is
 * skipped. An empty outcome is an error.
 */
module QuestParser {
  import opened Wrappers
  import opened Text
  import opened Values
  import Foreign

  const EgfrCodes: seq<string> := ["EGFR", "33914-3", "98979-8"]
  const StandardCode := "98979-8"
  const DefaultTestName := "eGFR (CKD-EPI)"
  const DefaultUnit := "mL/min/1.73m2"
  const DefaultReferenceRange := "\U{2265}90"
  const ReaderError := "Failed to parse Quest CSV"
  const NoEgfrResults := "Failed to parse Quest CSV: No eGFR results found in Quest CSV data"

  /** A row describes an eGFR test: by one of the codes, or by its upper-cased name. */
  predicate IsEgfrRow(row: Row) {
    var name := Upper(Get(row, "TEST_NAME", ""));
    Get(row, "TEST_CODE", "") in EgfrCodes || Contains(name, "EGFR") || Contains(name, "GLOMERULAR")
  }

  /** The record of a row; `None` for a row that is skipped. */
  function QuestRow(row: Row, lib: Foreign.Library): Option<Record> {
    if !IsEgfrRow(row) then None
    else
      var numeric := Get(row, "NUMERIC_RESULT", "0");
      if numeric == "" then None
      else
        match lib.parseFloat(numeric)
        case None => None
        case Some(v) =>
          Some(QuestRecord(row, v))
  }

  /** The record of a kept row whose result parsed to `v`. */
  function QuestRecord(row: Row, v: real): Record {
    map[
      "patient_id" := Str(Get(row, "MRN", "UNKNOWN")),
      "test_code" := Str(StandardCode),
      "test_name" := Str(DefaultTestName),
      "result_value" := Num(v),
      "unit" := Str(Get(row, "RESULT_UNITS", DefaultUnit)),
      "reference_range" := Str(Get(row, "REFERENCE_RANGE", DefaultReferenceRange)),
      "timestamp" := Str(Get(row, "COLLECTION_DATETIME", "")),
      "lab_name" := Str("Quest"),
      "status" := Str("final"),
      "interpretation" := Str(Get(row, "ABNORMAL_FLAG", "Normal"))
    ]
  }

  /** The records of the rows, in row order. */
  function QuestRecords(rows: seq<Row>, lib: Foreign.Library): seq<Record> {
    if |rows| == 0 then []
    else
      var last := QuestRow(rows[|rows| - 1], lib);
      QuestRecords(rows[..|rows| - 1], lib) + (if last.Some? then [last.value] else [])
  }

  /** `parse_quest_egfr` as a function of the text and the CSV reader. */
  function Quest(content: string, lib: Foreign.Library): Result<seq<Record>, string> {
    match lib.readDictRows(content)
    case None => Failure(ReaderError)
    case Some(rows) =>
      var records := QuestRecords(rows, lib);
      if records == [] then Failure(NoEgfrResults) else Success(records)
  }

  lemma QuestRecordsStep(rows: seq<Row>, i: nat, lib: Foreign.Library)
    requires i < |rows|
    ensures QuestRecords(rows[..i + 1], lib)
         == QuestRecords(rows[..i], lib) + (if QuestRow(rows[i], lib).Some? then [QuestRow(rows[i], lib).value] else [])
  {
    assert rows[..i + 1][..i] == rows[..i];
  }

  /** `parse_quest_egfr` */
  method ParseQuestEgfr(content: string, lib: Foreign.Library) returns (r: Result<seq<Record>, string>)
    ensures r == Quest(content, lib)
  {
    var reader := lib.readDictRows(content);
    if reader.None? {
      return Failure(ReaderError);
    }
    var rows := reader.value;
    var results: seq<Record> := [];
    for i := 0 to |rows|
      invariant results == QuestRecords(rows[..i], lib)
    {
      QuestRecordsStep(rows, i, lib);
      var row := rows[i];
      if IsEgfrRow(row) {
        var numeric := Get(row, "NUMERIC_RESULT", "0");
        if numeric != "" {
          var parsed := lib.parseFloat(numeric);
          if parsed.Some? {
            results := results + [QuestRecord(row, parsed.value)];
          }
        }
      }
    }
    assert rows[..|rows|] == rows;
    if results == [] {
      return Failure(NoEgfrResults);
    }
    return Success(results);
  }

  // ------------------------------------------------------------ properties

  /**
   * A row yields a record iff it is an eGFR row whose result (defaulting to
   * "0") is non-empty and numeric; that record carries the standard code,
   * "Quest" and "final" whatever the row said, and the parsed number.
   */
  lemma QuestRowCases(row: Row, lib: Foreign.Library)
    ensures QuestRow(row, lib).Some? <==>
      IsEgfrRow(row) && Get(row, "NUMERIC_RESULT", "0") != "" && lib.parseFloat(Get(row, "NUMERIC_RESULT", "0")).Some?
    ensures QuestRow(row, lib).Some? ==>
      var rec := QuestRow(row, lib).value;
      rec["test_code"] == Str(StandardCode) && rec["lab_name"] == Str("Quest") && rec["status"] == Str("final")
      && rec["patient_id"] == Str(Get(row, "MRN", "UNKNOWN"))
      && rec["result_value"] == Num(lib.parseFloat(Get(row, "NUMERIC_RESULT", "0")).value)
  {
    var numeric := Get(row, "NUMERIC_RESULT", "0");
    if IsEgfrRow(row) && numeric != "" && lib.parseFloat(numeric).Some? {
      QuestRecordFields(row, lib.parseFloat(numeric).value);
    }
  }

  /** The fixed and copied fields of a kept row's record. */
  lemma QuestRecordFields(row: Row, v: real)
    ensures var rec := QuestRecord(row, v);
      rec["test_code"] == Str(StandardCode) && rec["lab_name"] == Str("Quest") && rec["status"] == Str("final")
      && rec["patient_id"] == Str(Get(row, "MRN", "UNKNOWN")) && rec["result_value"] == Num(v)
  {
  }

  /** A row without a result column counts as "0". */
  lemma MissingResultIsZero(row: Row, lib: Foreign.Library)
    requires IsEgfrRow(row) && "NUMERIC_RESULT" !in row && lib.parseFloat("0") == Some(0.0)
    ensures QuestRow(row, lib).Some? && QuestRow(row, lib).value["result_value"] == Num(0.0)
  {
    QuestRecordFields(row, 0.0);
  }

  /** The number of rows that yield a record. */
  function KeptCount(rows: seq<Row>, lib: Foreign.Library): nat {
    if |rows| == 0 then 0
    else KeptCount(rows[..|rows| - 1], lib) + (if QuestRow(rows[|rows| - 1], lib).Some? then 1 else 0)
  }

  /** Every kept row gives one record, and each has the fixed code, lab and status. */
  lemma {:induction false} QuestRecordsShape(rows: seq<Row>, lib: Foreign.Library)
    ensures |QuestRecords(rows, lib)| == KeptCount(rows, lib)
    ensures forall k :: 0 <= k < |QuestRecords(rows, lib)| ==>
      var rec := QuestRecords(rows, lib)[k];
      "test_code" in rec && rec["test_code"] == Str(StandardCode)
      && "lab_name" in rec && rec["lab_name"] == Str("Quest")
      && "status" in rec && rec["status"] == Str("final")
  {
    if |rows| > 0 {
      QuestRecordsShape(rows[..|rows| - 1], lib);
      QuestRowCases(rows[|rows| - 1], lib);
    }
  }

  /** Records keep row order: the records of a prefix of the rows are a prefix of the records. */
  lemma {:induction false} QuestRecordsPrefix(rows: seq<Row>, m: nat, lib: Foreign.Library)
    requires m <= |rows|
    ensures QuestRecords(rows[..m], lib) <= QuestRecords(rows, lib)
  {
    if m < |rows| {
      assert rows[..|rows| - 1][..m] == rows[..m];
      QuestRecordsPrefix(rows[..|rows| - 1], m, lib);
    } else {
      assert rows[..m] == rows;
    }
  }

  /** The parse fails exactly when the reader fails or no row yields a record. */
  lemma QuestFailsIffNothingKept(content: string, lib: Foreign.Library)
    requires lib.readDictRows(content).Some?
    ensures Quest(content, lib).Failure? <==> KeptCount(lib.readDictRows(content).value, lib) == 0
  {
    QuestRecordsShape(lib.readDictRows(content).value, lib);
  }
}
