/**
 * `ingest/csv_parser.py`: CSV rows to flat result records.
 *
 * `parse_csv` reads each row of a data frame through chains of alternative
 * column names, the first present column winning, and emits exactly one
 * record per row. `parse_csv_simple` splits the text on newlines and commas
 * itself, zips each long-enough row with the header, and gives up on the whole
 * input (returning no records) as soon as one numeric conversion fails.
 */
module CsvParser {
  import opened Wrappers
  import opened Text
  import opened Values
  import Foreign

  const PatientIdColumns: seq<string> := ["Patient_ID", "MRN", "PATIENT_ID"]
  const TestCodeColumns: seq<string> := ["Test_LOINC_Code", "TEST_CODE", "Test_Code"]
  const ResultColumns: seq<string> := ["Result", "NUMERIC_RESULT", "Result_Value"]
  const UnitColumns: seq<string> := ["Units", "RESULT_UNITS", "Unit"]
  const TimestampColumns: seq<string> := ["Result_Date", "COLLECTION_DATETIME", "Collection_Date"]

  const DefaultPatientId := "UNKNOWN"
  const DefaultTestCode := "98979-8"
  const DefaultUnit := "mL/min/1.73m2"
  const DefaultTimestamp := "2025-08-06T12:00:00Z"
  const UnknownName := "Unknown"
  const ParseError := "Failed to parse CSV"

  // ------------------------------------------------------------ parse_csv

  /** The position of the first of `columns` that the row has. */
  function FirstPresent(row: Row, columns: seq<string>): (r: Option<nat>)
    ensures r.Some? ==> r.value < |columns| && columns[r.value] in row
                        && forall j :: 0 <= j < r.value ==> columns[j] !in row
    ensures r.None? ==> forall j :: 0 <= j < |columns| ==> columns[j] !in row
  {
    if |columns| == 0 then None
    else if columns[0] in row then Some(0)
    else
      match FirstPresent(row, columns[1..])
      case None => None
      case Some(k) => Some(k + 1)
  }

  /** An if/elif chain over `columns`: the cell of the first present one, else `default`. */
  function Lookup(row: Row, columns: seq<string>, default: string): (r: string)
    ensures (exists k :: 0 <= k < |columns| && columns[k] in row && r == row[columns[k]]
                         && forall j :: 0 <= j < k ==> columns[j] !in row)
         || ((forall j :: 0 <= j < |columns| ==> columns[j] !in row) && r == default)
  {
    match FirstPresent(row, columns)
    case Some(k) => row[columns[k]]
    case None => default
  }

  /** `x or default` on a cell */
  function Or(x: string, default: string): string {
    if x != "" then x else default
  }

  /** `Last^First^id` from the first complete pair of name columns, else the id alone. */
  function PatientName(row: Row, id: string): string {
    if "PATIENT_LAST" in row && "PATIENT_FIRST" in row then
      Or(row["PATIENT_LAST"], UnknownName) + "^" + Or(row["PATIENT_FIRST"], UnknownName) + "^" + id
    else if "Patient_Last" in row && "Patient_First" in row then
      Or(row["Patient_Last"], UnknownName) + "^" + Or(row["Patient_First"], UnknownName) + "^" + id
    else
      id
  }

  /** Only the first present result column is read; a cell `float()` rejects gives 0. */
  function ResultValue(row: Row, lib: Foreign.Library): real {
    match FirstPresent(row, ResultColumns)
    case None => 0.0
    case Some(k) => lib.parseFloat(row[ResultColumns[k]]).GetOr(0.0)
  }

  /** The record `parse_csv` builds from one row. */
  function CsvRecord(row: Row, lib: Foreign.Library): Record {
    map[
      "patient_id" := Str(PatientName(row, Lookup(row, PatientIdColumns, DefaultPatientId))),
      "test_code" := Str(Lookup(row, TestCodeColumns, DefaultTestCode)),
      "result_value" := Num(ResultValue(row, lib)),
      "unit" := Str(Lookup(row, UnitColumns, DefaultUnit)),
      "timestamp" := Str(Lookup(row, TimestampColumns, DefaultTimestamp))
    ]
  }

  /** The chain tries its first column, then the rest in order. */
  lemma LookupStep(row: Row, columns: seq<string>, default: string)
    requires |columns| > 0
    ensures columns[0] in row ==> Lookup(row, columns, default) == row[columns[0]]
    ensures columns[0] !in row ==> Lookup(row, columns, default) == Lookup(row, columns[1..], default)
  {
  }

  /** The if/elif chain over three columns, as the source spells it out. */
  method Chain3(row: Row, columns: seq<string>, default: string) returns (cell: string)
    requires |columns| == 3
    ensures cell == Lookup(row, columns, default)
  {
    LookupStep(row, columns, default);
    LookupStep(row, columns[1..], default);
    LookupStep(row, columns[2..], default);
    assert columns[1..][1..] == columns[2..] && columns[2..][1..] == [];
    if columns[0] in row {
      cell := row[columns[0]];
    } else if columns[1] in row {
      cell := row[columns[1]];
    } else if columns[2] in row {
      cell := row[columns[2]];
    } else {
      cell := default;
    }
  }

  /** The result columns are tried in order, and only the first present one is converted. */
  lemma ResultValueChain(row: Row, lib: Foreign.Library)
    ensures ResultValue(row, lib)
         == if "Result" in row then lib.parseFloat(row["Result"]).GetOr(0.0)
            else if "NUMERIC_RESULT" in row then lib.parseFloat(row["NUMERIC_RESULT"]).GetOr(0.0)
            else if "Result_Value" in row then lib.parseFloat(row["Result_Value"]).GetOr(0.0)
            else 0.0
  {
    var c1 := ResultColumns[1..];
    var c2 := c1[1..];
    assert ResultColumns[0] == "Result" && c1[0] == "NUMERIC_RESULT" && c2[0] == "Result_Value" && c2[1..] == [];
  }

  /**
   * The name-building if/elif chain of the row loop, kept as statements as the loop
   * body has it; `PatientName` is the same chain as an expression, for the record functions.
   */
  method BuildPatientName(row: Row, patientId: string) returns (patientName: string)
    ensures patientName == PatientName(row, patientId)
  {
    if "PATIENT_LAST" in row && "PATIENT_FIRST" in row {
      var lastName := Or(row["PATIENT_LAST"], UnknownName);
      var firstName := Or(row["PATIENT_FIRST"], UnknownName);
      patientName := lastName + "^" + firstName + "^" + patientId;
    } else if "Patient_Last" in row && "Patient_First" in row {
      var lastName := Or(row["Patient_Last"], UnknownName);
      var firstName := Or(row["Patient_First"], UnknownName);
      patientName := lastName + "^" + firstName + "^" + patientId;
    } else {
      patientName := patientId;
    }
  }

  /** The result-value if/elif chain of the row loop: only the first present column is converted. */
  method ExtractResultValue(row: Row, lib: Foreign.Library) returns (resultValue: real)
    ensures resultValue == ResultValue(row, lib)
  {
    resultValue := 0.0;
    ResultValueChain(row, lib);
    if "Result" in row {
      resultValue := lib.parseFloat(row["Result"]).GetOr(0.0);
    } else if "NUMERIC_RESULT" in row {
      resultValue := lib.parseFloat(row["NUMERIC_RESULT"]).GetOr(0.0);
    } else if "Result_Value" in row {
      resultValue := lib.parseFloat(row["Result_Value"]).GetOr(0.0);
    }
  }

  /** The body of `parse_csv`'s row loop. */
  method RowRecord(row: Row, lib: Foreign.Library) returns (record: Record)
    ensures record == CsvRecord(row, lib)
  {
    var patientId := Chain3(row, PatientIdColumns, DefaultPatientId);
    var patientName := BuildPatientName(row, patientId);
    var testCode := Chain3(row, TestCodeColumns, DefaultTestCode);
    var resultValue := ExtractResultValue(row, lib);
    var unit := Chain3(row, UnitColumns, DefaultUnit);
    var timestamp := Chain3(row, TimestampColumns, DefaultTimestamp);
    record := map[
      "patient_id" := Str(patientName),
      "test_code" := Str(testCode),
      "result_value" := Num(resultValue),
      "unit" := Str(unit),
      "timestamp" := Str(timestamp)
    ];
  }

  /** `parse_csv`: one record per data row, in row order; a reader failure fails the call. */
  method ParseCsv(content: string, lib: Foreign.Library) returns (r: Result<seq<Record>, string>)
    ensures lib.readCsvFrame(content).None? ==> r == Failure(ParseError)
    ensures lib.readCsvFrame(content).Some? ==>
      var rows := lib.readCsvFrame(content).value;
      r.Success? && |r.value| == |rows| && forall k :: 0 <= k < |rows| ==> r.value[k] == CsvRecord(rows[k], lib)
  {
    var frame := lib.readCsvFrame(content);
    if frame.None? {
      return Failure(ParseError);
    }
    var rows := frame.value;
    var records: seq<Record> := [];
    for i := 0 to |rows|
      invariant |records| == i
      invariant forall k :: 0 <= k < i ==> records[k] == CsvRecord(rows[k], lib)
    {
      var record := RowRecord(rows[i], lib);
      records := records + [record];
    }
    return Success(records);
  }

  // ------------------------------------------------------ parse_csv properties

  /** A row with none of the known columns gives the default record. */
  lemma BareRowDefaults(row: Row, lib: Foreign.Library)
    requires forall c :: c in row ==> c !in PatientIdColumns + TestCodeColumns + ResultColumns
                                            + UnitColumns + TimestampColumns
                                            + ["PATIENT_LAST", "PATIENT_FIRST", "Patient_Last", "Patient_First"]
    ensures CsvRecord(row, lib)["patient_id"] == Str(DefaultPatientId)
    ensures CsvRecord(row, lib)["test_code"] == Str(DefaultTestCode)
    ensures CsvRecord(row, lib)["result_value"] == Num(0.0)
    ensures CsvRecord(row, lib)["unit"] == Str(DefaultUnit)
    ensures CsvRecord(row, lib)["timestamp"] == Str(DefaultTimestamp)
  {
    assert "PATIENT_LAST" !in row && "Patient_Last" !in row;
    assert forall j :: 0 <= j < 3 ==>
      PatientIdColumns[j] !in row && TestCodeColumns[j] !in row
      && ResultColumns[j] !in row && UnitColumns[j] !in row && TimestampColumns[j] !in row;
  }

  /**
   * Only the first present result column counts: when "Result" is present
   * and `float()` rejects it, the value is 0 whatever the other columns hold.
   */
  lemma FirstResultColumnOnly(row: Row, lib: Foreign.Library)
    requires "Result" in row && lib.parseFloat(row["Result"]).None?
    ensures ResultValue(row, lib) == 0.0
  {
  }

  /** With no result column the value is 0; otherwise it is the first present one's number. */
  lemma ResultValueCases(row: Row, lib: Foreign.Library)
    ensures (forall j :: 0 <= j < |ResultColumns| ==> ResultColumns[j] !in row) ==> ResultValue(row, lib) == 0.0
    ensures forall k, n :: 0 <= k < |ResultColumns| && ResultColumns[k] in row
                           && (forall j :: 0 <= j < k ==> ResultColumns[j] !in row)
                           && lib.parseFloat(row[ResultColumns[k]]) == Some(n)
                           ==> ResultValue(row, lib) == n
  {
  }

  /**
   * The composite patient id reads back into its parts: with name columns
   * present and no '^' in the parts, splitting on '^' gives last name, first
   * name and id (empty names as "Unknown"); without them it is the id.
   */
  lemma PatientNameParts(row: Row, id: string)
    requires '^' !in id
    requires forall c :: c in row ==> '^' !in row[c]
    ensures "PATIENT_LAST" in row && "PATIENT_FIRST" in row ==>
      Split(PatientName(row, id), '^') == [Or(row["PATIENT_LAST"], UnknownName), Or(row["PATIENT_FIRST"], UnknownName), id]
    ensures !("PATIENT_LAST" in row && "PATIENT_FIRST" in row) && "Patient_Last" in row && "Patient_First" in row ==>
      Split(PatientName(row, id), '^') == [Or(row["Patient_Last"], UnknownName), Or(row["Patient_First"], UnknownName), id]
    ensures !("PATIENT_LAST" in row && "PATIENT_FIRST" in row) && !("Patient_Last" in row && "Patient_First" in row) ==>
      PatientName(row, id) == id
  {
    if "PATIENT_LAST" in row && "PATIENT_FIRST" in row {
      CaretTriple(Or(row["PATIENT_LAST"], UnknownName), Or(row["PATIENT_FIRST"], UnknownName), id);
    } else if "Patient_Last" in row && "Patient_First" in row {
      CaretTriple(Or(row["Patient_Last"], UnknownName), Or(row["Patient_First"], UnknownName), id);
    }
  }

  // ------------------------------------------------------- parse_csv_simple

  /** `dict(zip(headers, values))`: later duplicate headers overwrite earlier ones. */
  function Zip(headers: seq<string>, values: seq<string>): map<string, string>
    requires |values| >= |headers|
  {
    if |headers| == 0 then map[]
    else Zip(headers[..|headers| - 1], values)[headers[|headers| - 1] := values[|headers| - 1]]
  }

  /** A header's cell is the one under its last occurrence. */
  lemma {:induction false} ZipLastWins(headers: seq<string>, values: seq<string>, k: nat)
    requires |values| >= |headers| && k < |headers|
    requires forall j :: k < j < |headers| ==> headers[j] != headers[k]
    ensures headers[k] in Zip(headers, values) && Zip(headers, values)[headers[k]] == values[k]
  {
    if k < |headers| - 1 {
      ZipLastWins(headers[..|headers| - 1], values, k);
    }
  }

  /** The zipped row has exactly the header names as keys. */
  lemma {:induction false} ZipKeys(headers: seq<string>, values: seq<string>)
    requires |values| >= |headers|
    ensures forall c :: c in Zip(headers, values) <==> c in headers
  {
    if |headers| > 0 {
      ZipKeys(headers[..|headers| - 1], values);
      assert headers == headers[..|headers| - 1] + [headers[|headers| - 1]];
    }
  }

  /** The record `parse_csv_simple` builds from one zipped row; `None` where `float()` raises. */
  function SimpleRecord(rec: map<string, string>, lib: Foreign.Library): Option<Record> {
    var value := if "NUMERIC_RESULT" in rec then lib.parseFloat(rec["NUMERIC_RESULT"]) else Some(0.0);
    match value
    case None => None
    case Some(v) =>
      Some(map[
        "patient_id" := Str(Get(rec, "PATIENT_LAST", UnknownName) + "^" + Get(rec, "PATIENT_FIRST", UnknownName)
                            + "^" + Get(rec, "MRN", DefaultPatientId)),
        "test_code" := Str(Get(rec, "TEST_CODE", DefaultTestCode)),
        "result_value" := Num(v),
        "unit" := Str(Get(rec, "RESULT_UNITS", DefaultUnit)),
        "timestamp" := Str(Get(rec, "COLLECTION_DATETIME", DefaultTimestamp))
      ])
  }

  /** One turn of the line loop: a short line is skipped, a failed conversion is final. */
  function SimpleStep(headers: seq<string>, done: Option<seq<Record>>, line: string, lib: Foreign.Library): Option<seq<Record>> {
    match done
    case None => None
    case Some(records) =>
      var values := Split(line, ',');
      if |values| < |headers| then Some(records)
      else match SimpleRecord(Zip(headers, values), lib)
        case None => None
        case Some(rec) => Some(records + [rec])
  }

  /** The records of the data lines; `None` once any conversion fails. */
  function SimpleRows(headers: seq<string>, lines: seq<string>, lib: Foreign.Library): Option<seq<Record>> {
    if |lines| == 0 then Some([])
    else SimpleStep(headers, SimpleRows(headers, lines[..|lines| - 1], lib), lines[|lines| - 1], lib)
  }

  lemma SimpleRowsStep(headers: seq<string>, lines: seq<string>, i: nat, lib: Foreign.Library)
    requires i < |lines|
    ensures SimpleRows(headers, lines[..i + 1], lib) == SimpleStep(headers, SimpleRows(headers, lines[..i], lib), lines[i], lib)
  {
    assert lines[..i + 1][..i] == lines[..i];
  }

  /** `parse_csv_simple` as a function of the text. */
  function CsvSimple(content: string, lib: Foreign.Library): seq<Record> {
    SimpleLines(Split(Strip(content), '\n'), lib)
  }

  /** The records of the lines of the text: the first line is the header. */
  function SimpleLines(lines: seq<string>, lib: Foreign.Library): seq<Record> {
    if |lines| < 2 then []
    else SimpleRows(Split(lines[0], ','), lines[1..], lib).GetOr([])
  }

  /** `parse_csv_simple` */
  method ParseCsvSimple(content: string, lib: Foreign.Library) returns (records: seq<Record>)
    ensures records == CsvSimple(content, lib)
  {
    var lines := Split(Strip(content), '\n');
    if |lines| < 2 {
      return [];
    }
    var headers := Split(lines[0], ',');
    var data := lines[1..];
    records := [];
    for i := 0 to |data|
      invariant SimpleRows(headers, data[..i], lib) == Some(records)
    {
      SimpleRowsStep(headers, data, i, lib);
      var values := Split(data[i], ',');
      if |values| >= |headers| {
        var rec := Zip(headers, values);
        var record := SimpleRecord(rec, lib);
        if record.None? {
          SimpleRowsFailure(headers, data, lib, i);
          return [];
        }
        records := records + [record.value];
      }
    }
    assert data[..|data|] == data;
  }

  // ------------------------------------------------ parse_csv_simple properties

  /** A data line is kept only when it has as many fields as the header. */
  predicate LongEnough(headers: seq<string>, line: string) {
    |Split(line, ',')| >= |headers|
  }

  /** The number of data lines long enough to be read. */
  function LongEnoughCount(headers: seq<string>, lines: seq<string>): nat {
    if |lines| == 0 then 0
    else LongEnoughCount(headers, lines[..|lines| - 1]) + (if LongEnough(headers, lines[|lines| - 1]) then 1 else 0)
  }

  /** Short lines are skipped: when nothing fails, there is one record per long-enough line. */
  lemma {:induction false} SimpleRowsCount(headers: seq<string>, lines: seq<string>, lib: Foreign.Library)
    requires SimpleRows(headers, lines, lib).Some?
    ensures |SimpleRows(headers, lines, lib).value| == LongEnoughCount(headers, lines)
  {
    if |lines| > 0 {
      SimpleRowsCount(headers, lines[..|lines| - 1], lib);
    }
  }

  /** One failing conversion on a long-enough line makes the whole result `None`. */
  lemma {:induction false} SimpleRowsFailure(headers: seq<string>, lines: seq<string>, lib: Foreign.Library, k: nat)
    requires k < |lines| && LongEnough(headers, lines[k])
    requires SimpleRecord(Zip(headers, Split(lines[k], ',')), lib).None?
    ensures SimpleRows(headers, lines, lib).None?
  {
    if k < |lines| - 1 {
      assert lines[..|lines| - 1][k] == lines[k];
      SimpleRowsFailure(headers, lines[..|lines| - 1], lib, k);
    }
  }

  /** Fewer than two lines give no records. */
  lemma CsvSimpleFewLines(content: string, lib: Foreign.Library)
    requires |Split(Strip(content), '\n')| < 2
    ensures CsvSimple(content, lib) == []
  {
  }

  /** A failed conversion on any long-enough data line gives no records at all. */
  lemma CsvSimpleGivesUp(content: string, lib: Foreign.Library, k: nat)
    requires var lines := Split(Strip(content), '\n');
      1 <= k < |lines| && LongEnough(Split(lines[0], ','), lines[k])
      && SimpleRecord(Zip(Split(lines[0], ','), Split(lines[k], ',')), lib).None?
    ensures CsvSimple(content, lib) == []
  {
    SimpleLinesGiveUp(Split(Strip(content), '\n'), lib, k);
  }

  lemma SimpleLinesGiveUp(lines: seq<string>, lib: Foreign.Library, k: nat)
    requires 1 <= k < |lines| && LongEnough(Split(lines[0], ','), lines[k])
    requires SimpleRecord(Zip(Split(lines[0], ','), Split(lines[k], ',')), lib).None?
    ensures SimpleLines(lines, lib) == []
  {
    var headers := Split(lines[0], ',');
    var data := lines[1..];
    assert data[k - 1] == lines[k];
    SimpleRowsFailure(headers, data, lib, k - 1);
  }

  /** The simple parser's patient id splits back into last name, first name and MRN. */
  lemma SimplePatientIdParts(rec: map<string, string>, lib: Foreign.Library)
    requires SimpleRecord(rec, lib).Some?
    requires forall c :: c in rec ==> '^' !in rec[c]
    ensures SimpleRecord(rec, lib).value["patient_id"].Str?
    ensures Split(SimpleRecord(rec, lib).value["patient_id"].s, '^')
         == [Get(rec, "PATIENT_LAST", UnknownName), Get(rec, "PATIENT_FIRST", UnknownName), Get(rec, "MRN", DefaultPatientId)]
  {
    CaretTriple(Get(rec, "PATIENT_LAST", UnknownName), Get(rec, "PATIENT_FIRST", UnknownName), Get(rec, "MRN", DefaultPatientId));
  }
}
