/**
 * The canonical eGFR result (`CanonicalEGFRResult`): its fields and defaults,
 * the four field validators, construction from a raw record with
 * collect-all errors, and the three clinical classifiers.
 */
module Canonical {
  import opened Wrappers
  import opened Text
  import opened Values
  import Foreign

  const DefaultTestCode := "98979-8"
  const DefaultTestName := "eGFR (CKD-EPI)"
  const CanonicalUnit := "mL/min/1.73m2"
  const DefaultStatus := "final"
  /** The unit spellings accepted as they are. */
  const AllowedUnits: seq<string> := ["mL/min/1.73m2", "mL/min/1.73 m\U{b2}", "ml/min/1.73m2"]
  /** The eGFR LOINC codes kept as they are; anything else becomes the default. */
  const ValidCodes: seq<string> := ["98979-8", "33914-3", "62238-1"]
  /** The physiologically plausible range of an eGFR value, both ends included. */
  const MinEgfr: real := 0.0
  const MaxEgfr: real := 200.0
  /** Fields construction fails without. */
  const RequiredFields: seq<string> := ["patient_id", "result_value", "reference_range", "timestamp", "lab_name"]

  datatype CanonicalResult = CanonicalResult(
    patientId: string,
    testCode: string,
    testName: string,
    resultValue: real,
    unit: string,
    referenceRange: string,
    timestamp: string,
    labName: string,
    status: string,
    interpretation: Option<string>)

  /** The invariants every result that passed validation satisfies. */
  predicate Valid(c: CanonicalResult) {
    && c.patientId != ""
    && Strip(c.patientId) == c.patientId
    && MinEgfr <= c.resultValue <= MaxEgfr
    && c.unit == CanonicalUnit
    && c.testCode in ValidCodes
  }

  // ---------------------------------------------------------------- validators

  /**
   * `validate_patient_id`: rejects an empty or blank id and the literal
   * "UNKNOWN" (compared before trimming), and stores the trimmed id.
   */
  function ValidatePatientId(v: string): (r: Result<string, string>)
    ensures r.Failure? <==> AllSpace(v) || v == "UNKNOWN"
    ensures r.Success? ==> r.value == Strip(v) && r.value != "" && Strip(r.value) == r.value
  {
    StripEmptyIffBlank(v);
    StripIdempotent(v);
    if v == "" || Strip(v) == "" || v == "UNKNOWN" then
      Failure("Patient ID cannot be empty or unknown")
    else
      Success(Strip(v))
  }

  /** `validate_egfr_range`: a value outside [0, 200] is rejected, any other is kept. */
  function ValidateEgfrRange(v: real): (r: Result<real, string>)
    ensures r.Success? <==> MinEgfr <= v <= MaxEgfr
    ensures r.Success? ==> r.value == v
  {
    if v < 0.0 || v > 200.0 then Failure("eGFR value outside expected range (0-200)") else Success(v)
  }

  /** The unit with spaces removed and lower-cased, as `validate_unit` compares it. */
  function NormalizedUnit(v: string): string {
    Lower(Without(v, ' '))
  }

  /** A unit of the mL/min/1.73m2 family: both markers occur in its normalized form. */
  predicate InUnitFamily(v: string) {
    Contains(NormalizedUnit(v), "ml/min") && Contains(NormalizedUnit(v), "1.73")
  }

  /** The three allowed spellings all belong to the family. */
  lemma AllowedUnitsInFamily()
    ensures forall u :: u in AllowedUnits ==> InUnitFamily(u)
  {
    forall u | u in AllowedUnits
      ensures InUnitFamily(u)
    {
      if u == AllowedUnits[0] {
        SpacelessSpellingInFamily(u);
      } else if u == AllowedUnits[1] {
        SuperscriptSpellingInFamily(u);
      } else {
        SpacelessSpellingInFamily(u);
      }
    }
  }

  /** The two spellings without a space, which differ only in the case of the "L". */
  lemma SpacelessSpellingInFamily(u: string)
    requires u == "mL/min/1.73m2" || u == "ml/min/1.73m2"
    ensures InUnitFamily(u)
  {
    WithoutAbsent(u, ' ');
    LowerSpellings();
    SpellingMarkers();
    FamilyByMarkers(u, "ml/min/1.73m2");
  }

  lemma SuperscriptSpellingInFamily(u: string)
    requires u == "mL/min/1.73 m\U{b2}"
    ensures InUnitFamily(u)
  {
    assert u == "mL/min/1.73" + " " + "m\U{b2}";
    SpacelessSuperscript(u, "mL/min/1.73", "m\U{b2}");
    assert "mL/min/1.73" + "m\U{b2}" == "mL/min/1.73m\U{b2}";
    LowerSpellings();
    SpellingMarkers();
    FamilyByMarkers(u, "ml/min/1.73m\U{b2}");
  }

  /** Both normalised spellings, "ml/min/1.73m2" and "ml/min/1.73m\U{b2}", carry both markers. */
  lemma SpellingMarkers()
    ensures Contains("ml/min/1.73m2", "ml/min") && Contains("ml/min/1.73m2", "1.73")
    ensures Contains("ml/min/1.73m\U{b2}", "ml/min") && Contains("ml/min/1.73m\U{b2}", "1.73")
  {
    ContainsAt("ml/min/1.73m2", "ml/min", 0);
    ContainsAt("ml/min/1.73m2", "1.73", 7);
    ContainsAt("ml/min/1.73m\U{b2}", "ml/min", 0);
    ContainsAt("ml/min/1.73m\U{b2}", "1.73", 7);
  }

  lemma FamilyByMarkers(u: string, n: string)
    requires NormalizedUnit(u) == n && Contains(n, "ml/min") && Contains(n, "1.73")
    ensures InUnitFamily(u)
  { }

  /** The lower-case forms of the three spellings once spaces are removed. */
  lemma LowerSpellings()
    ensures Lower("mL/min/1.73m2") == "ml/min/1.73m2"
    ensures Lower("ml/min/1.73m2") == "ml/min/1.73m2"
    ensures Lower("mL/min/1.73m\U{b2}") == "ml/min/1.73m\U{b2}"
  { }

  lemma SpacelessSuperscript(u: string, a: string, b: string)
    requires a == "mL/min/1.73" && b == "m\U{b2}" && u == a + " " + b
    ensures Without(u, ' ') == a + b
  {
    WithoutAppend(a + " ", b, ' ');
    WithoutAppend(a, " ", ' ');
    WithoutAbsent(a, ' ');
    WithoutAbsent(b, ' ');
  }

  /**
   * `validate_unit`: accepts exactly the units of the mL/min/1.73m2 family
   * (the three allowed spellings are members of it) and stores the one
   * canonical spelling.
   */
  function ValidateUnit(v: string): (r: Result<string, string>)
    ensures r.Success? <==> InUnitFamily(v)
    ensures r.Success? ==> r.value == CanonicalUnit
  {
    AllowedUnitsInFamily();
    if v !in AllowedUnits then
      if InUnitFamily(v) then Success(CanonicalUnit) else Failure("Invalid eGFR unit")
    else
      Success(CanonicalUnit)
  }

  lemma CanonicalUnitAccepted()
    ensures ValidateUnit(CanonicalUnit) == Success(CanonicalUnit)
  {
    AllowedUnitsInFamily();
  }

  /**
   * `validate_loinc_code`: never rejects; a code of the allow-list is kept,
   * any other becomes the default code.
   */
  function ValidateLoincCode(v: string): (r: string)
    ensures r in ValidCodes
    ensures v in ValidCodes ==> r == v
    ensures v !in ValidCodes ==> r == DefaultTestCode
  {
    if v !in ValidCodes then DefaultTestCode else v
  }

  lemma ValidatorsIdempotent(id: string, v: real, unit: string, code: string)
    ensures ValidatePatientId(id).Success? && ValidatePatientId(id).value != "UNKNOWN" ==>
              ValidatePatientId(ValidatePatientId(id).value) == ValidatePatientId(id)
    ensures ValidateEgfrRange(v).Success? ==> ValidateEgfrRange(ValidateEgfrRange(v).value) == ValidateEgfrRange(v)
    ensures ValidateUnit(unit).Success? ==> ValidateUnit(ValidateUnit(unit).value) == ValidateUnit(unit)
    ensures ValidateLoincCode(ValidateLoincCode(code)) == ValidateLoincCode(code)
  {
    if ValidatePatientId(id).Success? {
      StripIdempotent(id);
      StripEmptyIffBlank(Strip(id));
    }
  }

  /** The "UNKNOWN" sentinel is compared before trimming, so a padded one is stored as "UNKNOWN". */
  lemma PaddedUnknownAccepted(padded: string, sentinel: string)
    requires sentinel == "UNKNOWN" && padded == " " + sentinel
    ensures ValidatePatientId(padded) == Success(sentinel)
    ensures ValidatePatientId(sentinel).Failure?
  {
    assert sentinel[0] == 'U' && sentinel[|sentinel| - 1] == 'N';
    PaddedIdStoredTrimmed(sentinel);
    assert |padded| != |sentinel|;
  }

  /** An id padded with one leading space is accepted and stored without it. */
  lemma PaddedIdStoredTrimmed(id: string)
    requires id != [] && !IsSpace(id[0]) && !IsSpace(id[|id| - 1])
    ensures ValidatePatientId(" " + id) == Success(id)
  {
    StripLeadingSpace(' ', id);
    StripUntrimmed(id);
    assert (" " + id)[0] == ' ';
    assert (" " + id)[1] == id[0];
  }

  /** Both ends of the range are accepted, values just outside are not. */
  lemma RangeBoundaries()
    ensures ValidateEgfrRange(0.0) == Success(0.0) && ValidateEgfrRange(200.0) == Success(200.0)
    ensures ValidateEgfrRange(-0.1).Failure? && ValidateEgfrRange(200.1).Failure?
  {
  }

  // ---------------------------------------------------------- construction

  datatype FieldError =
    | Missing(name: string)            // "field required"
    | WrongType(name: string)          // the value is not of the field's type
    | Invalid(name: string, reason: string) // a validator raised

  function ErrorOf<T>(r: Result<T, FieldError>): seq<FieldError> {
    if r.Failure? then [r.error] else []
  }

  function Checked<T>(name: string, r: Result<T, string>): Result<T, FieldError> {
    match r
    case Success(v) => Success(v)
    case Failure(reason) => Failure(Invalid(name, reason))
  }

  /** A `str` field that was supplied. */
  function StrValue(raw: Record, name: string): Result<string, FieldError>
    requires name in raw
  {
    match raw[name]
    case Str(s) => Success(s)
    case _ => Failure(WrongType(name))
  }

  function RequiredStr(raw: Record, name: string): (r: Result<string, FieldError>)
    ensures name !in raw ==> r == Failure(Missing(name))
    ensures r.Success? ==> raw[name] == Str(r.value)
  {
    if name !in raw then Failure(Missing(name)) else StrValue(raw, name)
  }

  function DefaultedStr(raw: Record, name: string, default: string): Result<string, FieldError> {
    if name !in raw then Success(default) else StrValue(raw, name)
  }

  function PatientIdField(raw: Record): (r: Result<string, FieldError>)
    ensures "patient_id" !in raw ==> r == Failure(Missing("patient_id"))
    ensures r.Success? ==> raw["patient_id"].Str? && r.value == Strip(raw["patient_id"].s)
                           && r.value != "" && Strip(r.value) == r.value
  {
    match RequiredStr(raw, "patient_id")
    case Failure(e) => Failure(e)
    case Success(s) => Checked("patient_id", ValidatePatientId(s))
  }

  /** Validators run on supplied values only; a default is taken as it is. */
  function TestCodeField(raw: Record): (r: Result<string, FieldError>)
    ensures "test_code" !in raw ==> r == Success(DefaultTestCode)
    ensures "test_code" in raw && r.Success? ==> raw["test_code"].Str? && r.value == ValidateLoincCode(raw["test_code"].s)
    ensures r.Success? ==> r.value in ValidCodes
  {
    match DefaultedStr(raw, "test_code", DefaultTestCode)
    case Failure(e) => Failure(e)
    case Success(s) => Success(if "test_code" in raw then ValidateLoincCode(s) else s)
  }

  function ResultValueField(raw: Record, lib: Foreign.Library): (r: Result<real, FieldError>)
    ensures "result_value" !in raw ==> r == Failure(Missing("result_value"))
    ensures r.Success? ==> Foreign.Float(raw["result_value"], lib) == Some(r.value) && MinEgfr <= r.value <= MaxEgfr
  {
    if "result_value" !in raw then Failure(Missing("result_value"))
    else match Foreign.Float(raw["result_value"], lib)
      case None => Failure(WrongType("result_value"))
      case Some(v) => Checked("result_value", ValidateEgfrRange(v))
  }

  function UnitField(raw: Record): (r: Result<string, FieldError>)
    ensures r.Success? ==> r.value == CanonicalUnit
    ensures "unit" in raw && r.Success? ==> raw["unit"].Str? && InUnitFamily(raw["unit"].s)
  {
    match DefaultedStr(raw, "unit", CanonicalUnit)
    case Failure(e) => Failure(e)
    case Success(s) => if "unit" in raw then Checked("unit", ValidateUnit(s)) else Success(s)
  }

  /** `Optional[str] = None`: absent and `None` both give `None`. */
  function InterpretationField(raw: Record): Result<Option<string>, FieldError> {
    if "interpretation" !in raw then Success(None)
    else match raw["interpretation"]
      case Null => Success(None)
      case Str(s) => Success(Some(s))
      case _ => Failure(WrongType("interpretation"))
  }

  /** The outcome of every field's check, in declaration order. */
  datatype Checks = Checks(
    patientId: Result<string, FieldError>,
    testCode: Result<string, FieldError>,
    testName: Result<string, FieldError>,
    resultValue: Result<real, FieldError>,
    unit: Result<string, FieldError>,
    referenceRange: Result<string, FieldError>,
    timestamp: Result<string, FieldError>,
    labName: Result<string, FieldError>,
    status: Result<string, FieldError>,
    interpretation: Result<Option<string>, FieldError>)
  {
    predicate AllPassed() {
      patientId.Success? && testCode.Success? && testName.Success? && resultValue.Success?
      && unit.Success? && referenceRange.Success? && timestamp.Success? && labName.Success?
      && status.Success? && interpretation.Success?
    }

    /** The errors of the failed checks, in field order. */
    function Errors(): seq<FieldError> {
      ErrorOf(patientId) + ErrorOf(testCode) + ErrorOf(testName) + ErrorOf(resultValue)
      + ErrorOf(unit) + ErrorOf(referenceRange) + ErrorOf(timestamp) + ErrorOf(labName)
      + ErrorOf(status) + ErrorOf(interpretation)
    }
  }

  function CheckFields(raw: Record, lib: Foreign.Library): Checks {
    Checks(PatientIdField(raw), TestCodeField(raw), DefaultedStr(raw, "test_name", DefaultTestName),
      ResultValueField(raw, lib), UnitField(raw), RequiredStr(raw, "reference_range"),
      RequiredStr(raw, "timestamp"), RequiredStr(raw, "lab_name"),
      DefaultedStr(raw, "status", DefaultStatus), InterpretationField(raw))
  }

  /** Some error is reported exactly when some check failed. */
  lemma ErrorsIffFailed(ch: Checks)
    ensures ch.Errors() == [] <==> ch.AllPassed()
  {
    assert |ch.Errors()| == |ErrorOf(ch.patientId)| + |ErrorOf(ch.testCode)| + |ErrorOf(ch.testName)|
      + |ErrorOf(ch.resultValue)| + |ErrorOf(ch.unit)| + |ErrorOf(ch.referenceRange)|
      + |ErrorOf(ch.timestamp)| + |ErrorOf(ch.labName)| + |ErrorOf(ch.status)| + |ErrorOf(ch.interpretation)|;
  }

  /**
   * `CanonicalEGFRResult(**raw)`: every field is checked, all failures are
   * reported together in field order, and keys that are not fields are ignored.
   */
  function Construct(raw: Record, lib: Foreign.Library): (r: Result<CanonicalResult, seq<FieldError>>)
    ensures r.Success? ==> Valid(r.value)
    ensures r.Failure? ==> r.error != []
  {
    var ch := CheckFields(raw, lib);
    ErrorsIffFailed(ch);
    if ch.AllPassed() then
      Success(CanonicalResult(ch.patientId.value, ch.testCode.value, ch.testName.value, ch.resultValue.value,
        ch.unit.value, ch.referenceRange.value, ch.timestamp.value, ch.labName.value, ch.status.value,
        ch.interpretation.value))
    else
      Failure(ch.Errors())
  }

  /** A missing required field always fails construction, and is reported as missing. */
  lemma MissingRequiredFails(raw: Record, lib: Foreign.Library, name: string)
    requires name in RequiredFields && name !in raw
    ensures Construct(raw, lib).Failure? && Missing(name) in Construct(raw, lib).error
  {
    var ch := CheckFields(raw, lib);
    assert name == "patient_id" || name == "result_value" || name == "reference_range"
      || name == "timestamp" || name == "lab_name";
    if name == "patient_id" {
      assert ch.patientId == Failure(Missing(name));
    } else if name == "result_value" {
      assert ch.resultValue == Failure(Missing(name));
    } else if name == "reference_range" {
      assert ch.referenceRange == Failure(Missing(name));
    } else if name == "timestamp" {
      assert ch.timestamp == Failure(Missing(name));
    } else {
      assert ch.labName == Failure(Missing(name));
    }
  }

  /** `canonical.dict()` */
  function AsRecord(c: CanonicalResult): Record {
    map[
      "patient_id" := Str(c.patientId),
      "test_code" := Str(c.testCode),
      "test_name" := Str(c.testName),
      "result_value" := Num(c.resultValue),
      "unit" := Str(c.unit),
      "reference_range" := Str(c.referenceRange),
      "timestamp" := Str(c.timestamp),
      "lab_name" := Str(c.labName),
      "status" := Str(c.status),
      "interpretation" := if c.interpretation.Some? then Str(c.interpretation.value) else Null
    ]
  }

  /**
   * Left-out optional fields take their defaults: test code "98979-8",
   * test name "eGFR (CKD-EPI)", the canonical unit, status "final", no interpretation.
   */
  lemma ConstructDefaults(raw: Record, lib: Foreign.Library)
    requires Construct(raw, lib).Success?
    ensures "test_code" !in raw ==> Construct(raw, lib).value.testCode == DefaultTestCode
    ensures "test_name" !in raw ==> Construct(raw, lib).value.testName == DefaultTestName
    ensures "unit" !in raw ==> Construct(raw, lib).value.unit == CanonicalUnit
    ensures "status" !in raw ==> Construct(raw, lib).value.status == DefaultStatus
    ensures "interpretation" !in raw ==> Construct(raw, lib).value.interpretation == None
  {
  }

  /**
   * What a constructed result holds: the trimmed id, the unchanged value, the
   * coerced code and the other strings as supplied.
   */
  lemma ConstructFields(raw: Record, lib: Foreign.Library)
    requires Construct(raw, lib).Success?
    ensures raw["patient_id"].Str? && Construct(raw, lib).value.patientId == Strip(raw["patient_id"].s)
    ensures Foreign.Float(raw["result_value"], lib) == Some(Construct(raw, lib).value.resultValue)
    ensures "test_code" in raw ==>
              raw["test_code"].Str? && Construct(raw, lib).value.testCode == ValidateLoincCode(raw["test_code"].s)
    ensures "unit" in raw ==> raw["unit"].Str? && InUnitFamily(raw["unit"].s)
    ensures raw["reference_range"] == Str(Construct(raw, lib).value.referenceRange)
    ensures raw["timestamp"] == Str(Construct(raw, lib).value.timestamp)
    ensures raw["lab_name"] == Str(Construct(raw, lib).value.labName)
  {
    ConstructParts(raw, lib);
  }

  /** A constructed result is made of the successful field checks. */
  lemma ConstructParts(raw: Record, lib: Foreign.Library)
    requires Construct(raw, lib).Success?
    ensures PatientIdField(raw).Success? && TestCodeField(raw).Success?
    ensures ResultValueField(raw, lib).Success? && UnitField(raw).Success?
    ensures RequiredStr(raw, "reference_range").Success? && RequiredStr(raw, "timestamp").Success?
    ensures RequiredStr(raw, "lab_name").Success?
    ensures Construct(raw, lib).value.patientId == PatientIdField(raw).value
    ensures Construct(raw, lib).value.testCode == TestCodeField(raw).value
    ensures Construct(raw, lib).value.resultValue == ResultValueField(raw, lib).value
    ensures Construct(raw, lib).value.referenceRange == RequiredStr(raw, "reference_range").value
    ensures Construct(raw, lib).value.timestamp == RequiredStr(raw, "timestamp").value
    ensures Construct(raw, lib).value.labName == RequiredStr(raw, "lab_name").value
  {
  }

  /** A value above 200 or below 0 rejects the record whatever else it holds. */
  lemma OutOfRangeRejected(raw: Record, lib: Foreign.Library)
    requires "result_value" in raw
    requires Foreign.Float(raw["result_value"], lib).Some?
    requires !(MinEgfr <= Foreign.Float(raw["result_value"], lib).value <= MaxEgfr)
    ensures Construct(raw, lib).Failure?
    ensures exists reason :: Invalid("result_value", reason) in Construct(raw, lib).error
  {
    var e := ResultValueField(raw, lib).error;
    assert e in Construct(raw, lib).error;
  }

  /**
   * Validation is idempotent: the dict of a valid result whose id is not the
   * sentinel validates back to the same result (the extra enrichment keys a
   * caller may add are ignored).
   */
  lemma ConstructAsRecord(c: CanonicalResult, extra: Record, lib: Foreign.Library)
    requires Valid(c) && c.patientId != "UNKNOWN"
    requires extra.Keys !! AsRecord(c).Keys
    ensures Construct(AsRecord(c) + extra, lib) == Success(c)
  {
    var raw := AsRecord(c) + extra;
    AsRecordRequiredFields(c, extra, lib);
    AsRecordCoercedFields(c, extra);
    AsRecordPlainFields(c, extra);
  }

  /** The dict of a result, with extra keys added, holds each field under its name. */
  lemma AsRecordLookup(c: CanonicalResult, extra: Record)
    requires extra.Keys !! AsRecord(c).Keys
    ensures var raw := AsRecord(c) + extra;
      && "patient_id" in raw && raw["patient_id"] == Str(c.patientId)
      && "test_code" in raw && raw["test_code"] == Str(c.testCode)
      && "test_name" in raw && raw["test_name"] == Str(c.testName)
      && "result_value" in raw && raw["result_value"] == Num(c.resultValue)
      && "unit" in raw && raw["unit"] == Str(c.unit)
      && "reference_range" in raw && raw["reference_range"] == Str(c.referenceRange)
      && "timestamp" in raw && raw["timestamp"] == Str(c.timestamp)
      && "lab_name" in raw && raw["lab_name"] == Str(c.labName)
      && "status" in raw && raw["status"] == Str(c.status)
      && "interpretation" in raw
      && raw["interpretation"] == if c.interpretation.Some? then Str(c.interpretation.value) else Null
  {
  }

  lemma AsRecordRequiredFields(c: CanonicalResult, extra: Record, lib: Foreign.Library)
    requires Valid(c) && c.patientId != "UNKNOWN"
    requires extra.Keys !! AsRecord(c).Keys
    ensures PatientIdField(AsRecord(c) + extra) == Success(c.patientId)
    ensures ResultValueField(AsRecord(c) + extra, lib) == Success(c.resultValue)
    ensures RequiredStr(AsRecord(c) + extra, "reference_range") == Success(c.referenceRange)
    ensures RequiredStr(AsRecord(c) + extra, "timestamp") == Success(c.timestamp)
    ensures RequiredStr(AsRecord(c) + extra, "lab_name") == Success(c.labName)
  {
    AsRecordLookup(c, extra);
    StripEmptyIffBlank(c.patientId);
  }

  lemma AsRecordCoercedFields(c: CanonicalResult, extra: Record)
    requires Valid(c)
    requires extra.Keys !! AsRecord(c).Keys
    ensures TestCodeField(AsRecord(c) + extra) == Success(c.testCode)
    ensures UnitField(AsRecord(c) + extra) == Success(c.unit)
  {
    AsRecordLookup(c, extra);
    CanonicalUnitAccepted();
  }

  lemma AsRecordPlainFields(c: CanonicalResult, extra: Record)
    requires extra.Keys !! AsRecord(c).Keys
    ensures DefaultedStr(AsRecord(c) + extra, "test_name", DefaultTestName) == Success(c.testName)
    ensures DefaultedStr(AsRecord(c) + extra, "status", DefaultStatus) == Success(c.status)
    ensures InterpretationField(AsRecord(c) + extra) == Success(c.interpretation)
  {
    AsRecordLookup(c, extra);
  }

  // ---------------------------------------------------------- classifiers

  /** CKD stages in order of decreasing kidney function. */
  datatype Stage = G1 | G2 | G3a | G3b | G4 | G5 {
    function Label(): string {
      match this
      case G1 => "G1 - Normal or high"
      case G2 => "G2 - Mildly decreased"
      case G3a => "G3a - Mild to moderately decreased"
      case G3b => "G3b - Moderately to severely decreased"
      case G4 => "G4 - Severely decreased"
      case G5 => "G5 - Kidney failure"
    }

    /** 0 for G1 up to 5 for G5. */
    function Severity(): nat {
      match this
      case G1 => 0
      case G2 => 1
      case G3a => 2
      case G3b => 3
      case G4 => 4
      case G5 => 5
    }
  }

  datatype Risk = Low | LowModerate | ModerateHigh | High {
    function Label(): string {
      match this
      case Low => "Low"
      case LowModerate => "Low-Moderate"
      case ModerateHigh => "Moderate-High"
      case High => "High"
    }
  }

  /** `get_clinical_stage`: thresholds 90/60/45/30/15 checked with `>=` from the top. */
  function ClinicalStage(value: real): Stage {
    if value >= 90.0 then G1
    else if value >= 60.0 then G2
    else if value >= 45.0 then G3a
    else if value >= 30.0 then G3b
    else if value >= 15.0 then G4
    else G5
  }

  /** `needs_clinical_attention` */
  function NeedsClinicalAttention(value: real): bool {
    value < 60.0
  }

  /** `get_risk_level` */
  function RiskLevel(value: real): Risk {
    if value >= 90.0 then Low
    else if value >= 60.0 then LowModerate
    else if value >= 30.0 then ModerateHigh
    else High
  }

  /** Each stage is one half-open band; a boundary value belongs to the better stage. */
  lemma StageBands(v: real)
    ensures ClinicalStage(v) == G1 <==> 90.0 <= v
    ensures ClinicalStage(v) == G2 <==> 60.0 <= v < 90.0
    ensures ClinicalStage(v) == G3a <==> 45.0 <= v < 60.0
    ensures ClinicalStage(v) == G3b <==> 30.0 <= v < 45.0
    ensures ClinicalStage(v) == G4 <==> 15.0 <= v < 30.0
    ensures ClinicalStage(v) == G5 <==> v < 15.0
  {
  }

  /** A lower value never has a better stage. */
  lemma StageMonotone(v: real, w: real)
    requires v <= w
    ensures ClinicalStage(w).Severity() <= ClinicalStage(v).Severity()
  {
  }

  lemma StageBoundaryExamples()
    ensures ClinicalStage(90.0) == G1 && ClinicalStage(89.9) == G2
    ensures ClinicalStage(60.0) == G2 && ClinicalStage(15.0) == G4 && ClinicalStage(14.9) == G5
    ensures ClinicalStage(89.9) != ClinicalStage(90.0)
  {
  }

  /** Attention is needed exactly below 60, that is, in stages G3a to G5. */
  lemma AttentionMatchesStage(v: real)
    ensures NeedsClinicalAttention(v) <==> v < 60.0
    ensures NeedsClinicalAttention(v) <==> ClinicalStage(v) != G1 && ClinicalStage(v) != G2
  {
  }

  /** The risk tier is a coarsening of the stage. */
  lemma RiskMatchesStage(v: real)
    ensures RiskLevel(v) == Low <==> ClinicalStage(v) == G1
    ensures RiskLevel(v) == LowModerate <==> ClinicalStage(v) == G2
    ensures RiskLevel(v) == ModerateHigh <==> ClinicalStage(v) == G3a || ClinicalStage(v) == G3b
    ensures RiskLevel(v) == High <==> ClinicalStage(v) == G4 || ClinicalStage(v) == G5
    ensures RiskLevel(v) == High <==> v < 30.0
  {
  }
}
