/**
 * `ingest/lgc_egfr_parser.py`: LGC's JSON test catalogue to eGFR records.
 *
 * The decoded document names one patient, one time stamp and a list of test
 * entries; every entry whose biomarker name mentions eGFR (or whose code is
 * "EGFR001") becomes one record. Python's exceptions are modelled as
 * `Failure` values: a `ValueError` with its fixed message, any other error
 * by its exception class.
 */
module LgcParser {
  import opened Wrappers
  import opened Text
  import opened Values
  import Foreign

  const InvalidJson := "Invalid JSON format"
  const NoTestResults := "No test results found in LGC data"
  const InvalidFormat := "Invalid eGFR data format"
  const NoEgfrResults := "No eGFR results found in LGC data"
  /** Uncaught errors, named by their exception class. */
  const AttributeError := "AttributeError"
  const KeyError := "KeyError"
  const TypeError := "TypeError"

  const DefaultTestCode := "98979-8"
  const DefaultTestName := "eGFR (CKD-EPI)"
  const DefaultUnit := "mL/min/1.73m2"
  const UnknownPart := "UNK"

  /** `data.get("labResults", data.get("testResults", []))` */
  function TestList(data: map<string, Value>): Value {
    Get(data, "labResults", Get(data, "testResults", Arr([])))
  }

  /** The eGFR predicate on the upper-cased biomarker name and the test code. */
  predicate IsEgfr(upperName: string, testCode: Value) {
    Contains(upperName, "EGFR") || Contains(upperName, "GLOMERULAR") || testCode == Str("EGFR001")
  }

  /** `lastName^firstName^dob`, each part formatted as text and "UNK" when missing. */
  function PatientIdOf(patient: map<string, Value>, lib: Foreign.Library): string {
    Foreign.Text(Get(patient, "lastName", Str(UnknownPart)), lib) + "^"
    + Foreign.Text(Get(patient, "firstName", Str(UnknownPart)), lib) + "^"
    + Foreign.Text(Get(patient, "dob", Str(UnknownPart)), lib)
  }

  /** `coding[0].get("code", "98979-8") if coding else "98979-8"` */
  function CodingCode(coding: Value): Result<Value, string> {
    if !Truthy(coding) then Success(Str(DefaultTestCode))
    else
      match coding
      case Arr(items) =>
        if items[0].Obj? then Success(Get(items[0].fields, "code", Str(DefaultTestCode))) else Failure(AttributeError)
      case Obj(_) => Failure(KeyError)
      case Str(_) => Failure(AttributeError)
      case _ => Failure(InvalidFormat)
  }

  /** `f"{lowerBound}-{upperBound}"` with the integer defaults 90 and 120. */
  function ReferenceRange(quant: map<string, Value>, lib: Foreign.Library): string {
    (if "lowerBound" in quant then Foreign.Text(quant["lowerBound"], lib) else "90") + "-"
    + (if "upperBound" in quant then Foreign.Text(quant["upperBound"], lib) else "120")
  }

  /** The record of one selected entry, in the order the source evaluates its parts. */
  function EntryRecord(patient: Value, test: map<string, Value>, timestamp: Value, lib: Foreign.Library): Result<Record, string> {
    if !patient.Obj? then Failure(AttributeError)
    else
      var patientId := PatientIdOf(patient.fields, lib);
      match CodingCode(Get(test, "coding", Arr([Obj(map[])])))
      case Failure(e) => Failure(e)
      case Success(code) =>
        var quant := Get(test, "quantitativeValue", Obj(map[]));
        if !quant.Obj? then Failure(AttributeError)
        else
          match Foreign.Float(Get(quant.fields, "value", Num(0.0)), lib)
          case None => Failure(InvalidFormat)
          case Some(v) =>
            Success(map[
              "patient_id" := Str(patientId),
              "test_code" := code,
              "test_name" := Str(DefaultTestName),
              "result_value" := Num(v),
              "unit" := Get(quant.fields, "unit", Str(DefaultUnit)),
              "reference_range" := Str(ReferenceRange(quant.fields, lib)),
              "timestamp" := timestamp,
              "lab_name" := Str("LGC"),
              "status" := Str("final"),
              "interpretation" := Get(test, "descriptor", Str("Normal"))
            ])
  }

  /** One turn of the entry loop: `None` for an entry that is not an eGFR test. */
  function EntryStep(patient: Value, test: Value, timestamp: Value, lib: Foreign.Library): Result<Option<Record>, string> {
    if !test.Obj? then Failure(AttributeError)
    else
      var name := Get(test.fields, "biomarkerName", Str(""));
      if !name.Str? then Failure(AttributeError)
      else if !IsEgfr(Upper(name.s), Get(test.fields, "testCode", Str(""))) then Success(None)
      else
        match EntryRecord(patient, test.fields, timestamp, lib)
        case Failure(e) => Failure(e)
        case Success(r) => Success(Some(r))
  }

  /** The entry loop over `tests`; the first failing entry ends it. */
  function Scan(patient: Value, tests: seq<Value>, timestamp: Value, lib: Foreign.Library): Result<seq<Record>, string> {
    if |tests| == 0 then Success([])
    else
      match Scan(patient, tests[..|tests| - 1], timestamp, lib)
      case Failure(e) => Failure(e)
      case Success(done) =>
        match EntryStep(patient, tests[|tests| - 1], timestamp, lib)
        case Failure(e) => Failure(e)
        case Success(None) => Success(done)
        case Success(Some(r)) => Success(done + [r])
  }

  /** Iterating a truthy value that is not a list fails at once. */
  function NotAList(v: Value): string {
    if v.Obj? || v.Str? then AttributeError else TypeError
  }

  /** `parse_lgc_egfr` as a function of the text and the JSON decoder. */
  function Lgc(content: string, lib: Foreign.Library): Result<seq<Record>, string> {
    match lib.loadsJson(content)
    case None => Failure(InvalidJson)
    case Some(data) =>
      if !data.Obj? then Failure(AttributeError)
      else
        var patient := Get(data.fields, "patientIdentification", Obj(map[]));
        var timestamp := Get(data.fields, "timeStamp", Str(""));
        var tests := TestList(data.fields);
        if !Truthy(tests) then Failure(NoTestResults)
        else if !tests.Arr? then Failure(NotAList(tests))
        else
          match Scan(patient, tests.items, timestamp, lib)
          case Failure(e) => Failure(e)
          case Success(records) => if records == [] then Failure(NoEgfrResults) else Success(records)
  }

  lemma ScanStep(patient: Value, tests: seq<Value>, i: nat, timestamp: Value, lib: Foreign.Library)
    requires i < |tests|
    ensures Scan(patient, tests[..i + 1], timestamp, lib)
         == match Scan(patient, tests[..i], timestamp, lib)
            case Failure(e) => Failure(e)
            case Success(done) =>
              match EntryStep(patient, tests[i], timestamp, lib)
              case Failure(e) => Failure(e)
              case Success(None) => Success(done)
              case Success(Some(r)) => Success(done + [r])
  {
    assert tests[..i + 1][..i] == tests[..i];
  }

  /** `parse_lgc_egfr` */
  method ParseLgcEgfr(content: string, lib: Foreign.Library) returns (r: Result<seq<Record>, string>)
    ensures r == Lgc(content, lib)
  {
    var decoded := lib.loadsJson(content);
    if decoded.None? {
      return Failure(InvalidJson);
    }
    var data := decoded.value;
    if !data.Obj? {
      return Failure(AttributeError);
    }
    var patient := Get(data.fields, "patientIdentification", Obj(map[]));
    var timestamp := Get(data.fields, "timeStamp", Str(""));
    var tests := Get(data.fields, "labResults", Get(data.fields, "testResults", Arr([])));
    if !Truthy(tests) {
      return Failure(NoTestResults);
    }
    if !tests.Arr? {
      return Failure(NotAList(tests));
    }
    var results: seq<Record> := [];
    for i := 0 to |tests.items|
      invariant Scan(patient, tests.items[..i], timestamp, lib) == Success(results)
    {
      ScanStep(patient, tests.items, i, timestamp, lib);
      var step := EntryStep(patient, tests.items[i], timestamp, lib);
      if step.Failure? {
        ScanFails(patient, tests.items, i, timestamp, lib);
        return Failure(step.error);
      }
      if step.value.Some? {
        results := results + [step.value.value];
      }
    }
    assert tests.items[..|tests.items|] == tests.items;
    if results == [] {
      return Failure(NoEgfrResults);
    }
    return Success(results);
  }

  // ------------------------------------------------------------ properties

  /**
   * A failing entry ends the scan with its own error, provided every entry
   * before it went through.
   */
  lemma {:induction false} ScanFails(patient: Value, tests: seq<Value>, k: nat, timestamp: Value, lib: Foreign.Library)
    requires k < |tests| && EntryStep(patient, tests[k], timestamp, lib).Failure?
    requires Scan(patient, tests[..k], timestamp, lib).Success?
    ensures Scan(patient, tests, timestamp, lib) == Failure(EntryStep(patient, tests[k], timestamp, lib).error)
    decreases |tests|
  {
    if k < |tests| - 1 {
      var init := tests[..|tests| - 1];
      assert init[..k] == tests[..k] && init[k] == tests[k];
      ScanFails(patient, init, k, timestamp, lib);
    } else {
      assert tests[..|tests| - 1] == tests[..k];
    }
  }

  /** A failed entry anywhere makes the whole scan fail. */
  lemma {:induction false} ScanFailureAnywhere(patient: Value, tests: seq<Value>, k: nat, timestamp: Value, lib: Foreign.Library)
    requires k < |tests| && EntryStep(patient, tests[k], timestamp, lib).Failure?
    ensures Scan(patient, tests, timestamp, lib).Failure?
  {
    if k < |tests| - 1 {
      assert tests[..|tests| - 1][k] == tests[k];
      ScanFailureAnywhere(patient, tests[..|tests| - 1], k, timestamp, lib);
    }
  }

  /** The number of entries selected as eGFR tests. */
  function SelectedCount(patient: Value, tests: seq<Value>, timestamp: Value, lib: Foreign.Library): nat {
    if |tests| == 0 then 0
    else
      var step := EntryStep(patient, tests[|tests| - 1], timestamp, lib);
      SelectedCount(patient, tests[..|tests| - 1], timestamp, lib) + (if step.Success? && step.value.Some? then 1 else 0)
  }

  /** What a record of the scan holds: the shared patient and time, the fixed lab, name and status. */
  predicate LgcShape(r: Record, patient: Value, timestamp: Value, lib: Foreign.Library) {
    patient.Obj?
    && "patient_id" in r && r["patient_id"] == Str(PatientIdOf(patient.fields, lib))
    && "timestamp" in r && r["timestamp"] == timestamp
    && "lab_name" in r && r["lab_name"] == Str("LGC")
    && "status" in r && r["status"] == Str("final")
    && "test_name" in r && r["test_name"] == Str(DefaultTestName)
  }

  /** A successful scan gives one record per selected entry, each of the common shape. */
  lemma {:induction false} ScanShape(patient: Value, tests: seq<Value>, timestamp: Value, lib: Foreign.Library)
    requires Scan(patient, tests, timestamp, lib).Success?
    ensures |Scan(patient, tests, timestamp, lib).value| == SelectedCount(patient, tests, timestamp, lib)
    ensures forall k :: 0 <= k < |Scan(patient, tests, timestamp, lib).value| ==>
      LgcShape(Scan(patient, tests, timestamp, lib).value[k], patient, timestamp, lib)
  {
    if |tests| > 0 {
      ScanShape(patient, tests[..|tests| - 1], timestamp, lib);
      var step := EntryStep(patient, tests[|tests| - 1], timestamp, lib);
      if step.Success? && step.value.Some? {
        EntryShape(patient, tests[|tests| - 1].fields, timestamp, lib);
      }
    }
  }

  /** Records keep the entries' order: a prefix of the entries scans to a prefix of the records. */
  lemma {:induction false} ScanPrefix(patient: Value, tests: seq<Value>, m: nat, timestamp: Value, lib: Foreign.Library)
    requires m <= |tests| && Scan(patient, tests, timestamp, lib).Success?
    ensures Scan(patient, tests[..m], timestamp, lib).Success?
    ensures Scan(patient, tests[..m], timestamp, lib).value <= Scan(patient, tests, timestamp, lib).value
  {
    if m < |tests| {
      var init := tests[..|tests| - 1];
      assert init[..m] == tests[..m];
      ScanPrefix(patient, init, m, timestamp, lib);
    } else {
      assert tests[..m] == tests;
    }
  }

  /**
   * A selected entry k contributes its own record, built from that entry's fields,
   * right after the records of the entries before it.
   */
  lemma ScanPlacesEntry(patient: Value, tests: seq<Value>, k: nat, timestamp: Value, lib: Foreign.Library)
    requires k < |tests| && Scan(patient, tests, timestamp, lib).Success?
    requires EntryStep(patient, tests[k], timestamp, lib).Success?
    requires EntryStep(patient, tests[k], timestamp, lib).value.Some?
    ensures tests[k].Obj? && EntryRecord(patient, tests[k].fields, timestamp, lib).Success?
    ensures SelectedCount(patient, tests[..k], timestamp, lib) < |Scan(patient, tests, timestamp, lib).value|
    ensures Scan(patient, tests, timestamp, lib).value[SelectedCount(patient, tests[..k], timestamp, lib)]
         == EntryRecord(patient, tests[k].fields, timestamp, lib).value
  {
    ScanPrefix(patient, tests, k + 1, timestamp, lib);
    ScanPrefix(patient, tests, k, timestamp, lib);
    ScanShape(patient, tests[..k], timestamp, lib);
    ScanStep(patient, tests, k, timestamp, lib);
  }

  lemma EntryShape(patient: Value, test: map<string, Value>, timestamp: Value, lib: Foreign.Library)
    requires EntryRecord(patient, test, timestamp, lib).Success?
    ensures LgcShape(EntryRecord(patient, test, timestamp, lib).value, patient, timestamp, lib)
  {
  }

  /** A list that is present under "labResults" is used even when it is empty. */
  lemma LabResultsTakesPrecedence(data: map<string, Value>)
    ensures "labResults" in data ==> TestList(data) == data["labResults"]
    ensures "labResults" !in data && "testResults" in data ==> TestList(data) == data["testResults"]
    ensures "labResults" !in data && "testResults" !in data ==> TestList(data) == Arr([])
  {
  }

  /** An empty "labResults" fails the parse, whatever "testResults" holds. */
  lemma EmptyLabResultsFails(content: string, lib: Foreign.Library)
    requires lib.loadsJson(content).Some? && lib.loadsJson(content).value.Obj?
    requires var data := lib.loadsJson(content).value.fields;
      "labResults" in data && data["labResults"] == Arr([])
    ensures Lgc(content, lib) == Failure(NoTestResults)
  {
  }

  /** Selection: an entry is taken iff its upper-cased name mentions eGFR or it has the LGC code. */
  lemma SelectionPredicate(patient: Value, test: map<string, Value>, timestamp: Value, lib: Foreign.Library)
    requires "biomarkerName" !in test || test["biomarkerName"].Str?
    ensures var name := Upper(Get(test, "biomarkerName", Str("")).s);
      var step := EntryStep(patient, Obj(test), timestamp, lib);
      (step == Success(None) <==> !IsEgfr(name, Get(test, "testCode", Str(""))))
      && (IsEgfr(name, Get(test, "testCode", Str(""))) ==>
            step == match EntryRecord(patient, test, timestamp, lib)
                    case Failure(e) => Failure(e)
                    case Success(r) => Success(Some(r)))
  {
  }

  /**
   * The test code: the default when "coding" is missing or empty, the first
   * coding's "code" otherwise (the default again when that has none).
   */
  lemma TestCodeCases(test: map<string, Value>)
    ensures "coding" !in test ==> CodingCode(Get(test, "coding", Arr([Obj(map[])]))) == Success(Str(DefaultTestCode))
    ensures "coding" in test && test["coding"] == Arr([]) ==> CodingCode(test["coding"]) == Success(Str(DefaultTestCode))
    ensures forall items, m :: "coding" in test && test["coding"] == Arr(items) && items != [] && items[0] == Obj(m) ==>
      CodingCode(test["coding"]) == Success(Get(m, "code", Str(DefaultTestCode)))
  {
  }

  /** The patient id reads back into last name, first name and date of birth. */
  lemma PatientIdParts(patient: map<string, Value>, lib: Foreign.Library)
    requires '^' !in Foreign.Text(Get(patient, "lastName", Str(UnknownPart)), lib)
    requires '^' !in Foreign.Text(Get(patient, "firstName", Str(UnknownPart)), lib)
    requires '^' !in Foreign.Text(Get(patient, "dob", Str(UnknownPart)), lib)
    ensures Split(PatientIdOf(patient, lib), '^')
         == [Foreign.Text(Get(patient, "lastName", Str(UnknownPart)), lib),
             Foreign.Text(Get(patient, "firstName", Str(UnknownPart)), lib),
             Foreign.Text(Get(patient, "dob", Str(UnknownPart)), lib)]
  {
    CaretTriple(Foreign.Text(Get(patient, "lastName", Str(UnknownPart)), lib),
                Foreign.Text(Get(patient, "firstName", Str(UnknownPart)), lib),
                Foreign.Text(Get(patient, "dob", Str(UnknownPart)), lib));
  }

  /** Without bounds the reference range is "90-120". */
  lemma DefaultReferenceRange(quant: map<string, Value>, lib: Foreign.Library)
    requires "lowerBound" !in quant && "upperBound" !in quant
    ensures ReferenceRange(quant, lib) == "90-120"
  {
  }

  /** A selected entry whose value `float()` rejects fails the whole parse rather than being skipped. */
  lemma BadValueFails(patient: Value, tests: seq<Value>, k: nat, timestamp: Value, lib: Foreign.Library)
    requires k < |tests| && tests[k].Obj? && patient.Obj?
    requires var test := tests[k].fields;
      var name := Get(test, "biomarkerName", Str(""));
      name.Str? && IsEgfr(Upper(name.s), Get(test, "testCode", Str("")))
      && "coding" !in test
      && "quantitativeValue" in test && test["quantitativeValue"].Obj?
      && Foreign.Float(Get(test["quantitativeValue"].fields, "value", Num(0.0)), lib).None?
    ensures Scan(patient, tests, timestamp, lib).Failure?
  {
    ScanFailureAnywhere(patient, tests, k, timestamp, lib);
  }

  /** With entries but none selected, the parse fails with "No eGFR results". */
  lemma NoneSelectedFails(content: string, lib: Foreign.Library)
    requires lib.loadsJson(content).Some? && lib.loadsJson(content).value.Obj?
    requires var data := lib.loadsJson(content).value.fields;
      var tests := TestList(data);
      tests.Arr? && tests.items != []
      && forall k :: 0 <= k < |tests.items| ==>
           EntryStep(Get(data, "patientIdentification", Obj(map[])), tests.items[k], Get(data, "timeStamp", Str("")), lib) == Success(None)
    ensures Lgc(content, lib) == Failure(NoEgfrResults)
  {
    var data := lib.loadsJson(content).value.fields;
    NothingSelected(Get(data, "patientIdentification", Obj(map[])), TestList(data).items, Get(data, "timeStamp", Str("")), lib);
  }

  lemma {:induction false} NothingSelected(patient: Value, tests: seq<Value>, timestamp: Value, lib: Foreign.Library)
    requires forall k :: 0 <= k < |tests| ==> EntryStep(patient, tests[k], timestamp, lib) == Success(None)
    ensures Scan(patient, tests, timestamp, lib) == Success([])
  {
    if |tests| > 0 {
      assert forall k :: 0 <= k < |tests| - 1 ==> tests[..|tests| - 1][k] == tests[k];
      NothingSelected(patient, tests[..|tests| - 1], timestamp, lib);
    }
  }
}
