# eGFR vendor-to-canonical path, modelled in Dafny

This project models the path an eGFR (estimated glomerular filtration rate)
lab result takes from a vendor's format to the canonical result and the
batch summary:

- **Canonical result** (`models/egfr_canonical.py`). `CanonicalEGFRResult` has its fields, defaults and required fields. Its four validators check the patient id, the value range [0, 200], the unit family and the LOINC code. There are three classifiers: CKD stage, needs-attention and risk level.
- **Format parsers**:
  - HL7 v2 ORU^R01 (`ingest/hl7_parser.py`). Messages are split on `MSH` lines. The patient comes from PID-3 (segment PID, section 3.4.2 of HL7 v2.5). The time comes from OBR-7 (section 7.4.1), or from a clock reading taken for each record when that is missing. Each OBX segment gives one record (section 7.4.2).
  - Generic CSV (`ingest/csv_parser.py`). Header alias chains pick each field, and a naive comma-split parser is the fallback.
  - LGC JSON (`ingest/lgc_egfr_parser.py`).
  - Quest CSV (`ingest/quest_egfr_parser.py`).
- **Field renamer** (`normalize/transformer.py`). It turns a flat record into the nested patient/test/result/effectiveDateTime form.
- **Batch orchestrator** (`egfr_demo_pipeline.py`). `EGFRDemoPipeline` dispatches on the vendor name and validates each record on its own. It enriches every valid record with its stage, attention flag and risk level, builds FHIR output, and reports the counts.
- **FHIR builder** (`output/fhir_builder.py`). Only the keys it reads are modelled.

Modules, one per source file, plus shared ones:

| file | module | models |
|---|---|---|
| `wrappers.dfy` | `Wrappers` | `Option`, `Result` |
| `values.dfy` | `Values` | Python values (`Value`), raw records, CSV rows, HL7 segments |
| `foreign.dfy` | `Foreign` | the libraries the core calls, as one parameter record |
| `text.dfy` | `Text` | `str.strip`, `split`, `join`, `replace(" ", "")`, `lower`/`upper`, `in` on strings |
| `canonical.dfy` | `Canonical` | `models/egfr_canonical.py` |
| `hl7.dfy` | `Hl7Parser` | `ingest/hl7_parser.py` |
| `csv.dfy` | `CsvParser` | `ingest/csv_parser.py` |
| `lgc.dfy` | `LgcParser` | `ingest/lgc_egfr_parser.py` |
| `quest.dfy` | `QuestParser` | `ingest/quest_egfr_parser.py` |
| `transformer.dfy` | `Transformer` | `normalize/transformer.py` |
| `fhir.dfy` | `FhirBuilder` | `output/fhir_builder.py`, the keys it reads |
| `pipeline.dfy` | `Pipeline` | `egfr_demo_pipeline.py` |

Pure source code is modelled as functions and lemmas: the canonical model, the transformer and the FHIR builder. The parsers and the orchestrator work by loops that append to lists. They are modelled as methods with those loops. Each method's `ensures` ties its result to a specification function. The lemmas then prove the source's promises about that function.

The orchestrator is a class, `Pipeline.EGFRDemoPipeline`, whose field `vendorParsers` is the vendor table built by `__init__`.

An exception becomes the `Failure` branch of a `Result`, carrying the message text the source builds. Foreign code is a parameter of type `Foreign.Library`, so every proof holds for every behaviour of that code. This covers:
- `float()`, `str()`;
- `json.loads`, `pandas.read_csv`, `csv.DictReader`, `hl7.parse`;
- `datetime.now()`, with one reading for each call;
- the FHIR constructors.

A consequence of the source, proved as `Pipeline.FhirNeverBuilt`: the orchestrator builds a nested dict inline and gives it to the FHIR builder (`egfr_demo_pipeline.py:72-80`). It does not call the transformer, but its dict has exactly the transformer's shape, so the model reuses `Transformer.NormalizeResult` for it. That dict has no `test_name` or `units` key, which the builder reads first. So every build fails and is skipped, the FHIR list is always empty, and `epic_ready` is always false.

Where the code and its descriptions differ, the model follows the code:

- `validate_patient_id` compares with `"UNKNOWN"` before trimming, so `" UNKNOWN"` is accepted and stored as `"UNKNOWN"` (`Canonical.PaddedUnknownAccepted`).
- In the HL7 parser, an OBX-5 field that is present but whose first component is empty gives `result_value == ""`, not `None`. That is because `obx[5]` is truthy and `if result_value:` leaves the empty string alone (`Hl7Parser.ResultValueCases`).
- Pydantic is taken in its version-2 behaviour. A `str` field accepts only a string. The `float` field accepts numbers, booleans and numeric strings. Validators run only on supplied values, not on defaults, and all field errors are reported together.

## Model

| member | source | states |
|---|---|---|
| Canonical.ValidatePatientId | models/egfr_canonical.py:19-23 | rejected iff the id is blank or exactly "UNKNOWN" (compared before trimming); an accepted id is stored trimmed, non-empty and already stripped |
| Canonical.ValidateEgfrRange | models/egfr_canonical.py:25-29 | accepted iff 0 <= v <= 200, and an accepted value is stored unchanged |
| Canonical.ValidateUnit | models/egfr_canonical.py:31-40 | accepted iff the unit is in the family (one of the listed spellings, or its space-free lower-case form contains "ml/min" and "1.73"); the stored unit is always "mL/min/1.73m2" |
| Canonical.AllowedUnitsInFamily | models/egfr_canonical.py:33-37 | each of the three listed spellings also satisfies the normalised test, so the family is exactly the normalised test |
| Canonical.CanonicalUnitAccepted | models/egfr_canonical.py:33-40 | the canonical spelling validates to itself |
| Canonical.ValidateLoincCode | models/egfr_canonical.py:42-49 | never rejects; the result is one of the three codes, a listed code is kept and any other becomes "98979-8" |
| Canonical.ValidatorsIdempotent | models/egfr_canonical.py:19-49 | validating an accepted output again gives the same result, for all four validators (for the id, unless the trimmed id is "UNKNOWN") |
| Canonical.PaddedIdStoredTrimmed | models/egfr_canonical.py:21-23 | an id with one leading blank and no blank at either end of the rest is accepted and stored without the blank |
| Canonical.PaddedUnknownAccepted | models/egfr_canonical.py:21-23 | " UNKNOWN" is accepted and stored as "UNKNOWN", while "UNKNOWN" itself is rejected |
| Canonical.RangeBoundaries | models/egfr_canonical.py:27 | 0 and 200 are accepted, -0.1 and 200.1 rejected |
| Canonical.Construct | models/egfr_canonical.py:6-17 | a constructed result satisfies every validator invariant; a failure lists at least one error |
| Canonical.ErrorsIffFailed | models/egfr_canonical.py:6-17 | the collected error list is empty iff every field check passed, so all field errors are reported together |
| Canonical.MissingRequiredFails | models/egfr_canonical.py:8-15 | a missing required field (patient_id, result_value, reference_range, timestamp, lab_name) always makes construction fail, and the errors report it as missing |
| Canonical.RequiredStr | models/egfr_canonical.py:13-15 | a missing required string is reported as missing; an accepted one is the supplied string |
| Canonical.PatientIdField | models/egfr_canonical.py:8-23 | a missing id is reported as missing; an accepted id is the supplied string trimmed, non-empty and already stripped |
| Canonical.TestCodeField | models/egfr_canonical.py:9-49 | an absent code takes the default; a supplied one is passed through the LOINC validator; the stored code is always one of the three codes |
| Canonical.ResultValueField | models/egfr_canonical.py:11-29 | a missing value is reported as missing; an accepted value is the supplied value converted to float, within [0, 200] |
| Canonical.UnitField | models/egfr_canonical.py:12-40 | the stored unit is always the canonical spelling, and a supplied unit is accepted only when it is in the family |
| Canonical.ConstructDefaults | models/egfr_canonical.py:9-17 | an absent test_code, test_name, unit, status or interpretation takes its default |
| Canonical.ConstructFields | models/egfr_canonical.py:8-49 | each stored field is the validator's output on the supplied value: trimmed id, converted number, coerced code, unit in the family, required strings unchanged |
| Canonical.ConstructParts | models/egfr_canonical.py:8-17 | a successful construction has every field check succeed, and stores each check's value |
| Canonical.OutOfRangeRejected | models/egfr_canonical.py:25-29 | a convertible value outside [0, 200] makes construction fail with an invalid-result_value error |
| Canonical.ConstructAsRecord | models/egfr_canonical.py:6-17 | round trip: constructing from a valid result's dict, with any extra keys, gives back that result |
| Canonical.StageBands | models/egfr_canonical.py:51-64 | each stage is exactly one half-open band of the thresholds 90/60/45/30/15; boundaries belong to the better stage |
| Canonical.StageMonotone | models/egfr_canonical.py:51-64 | a larger value never has a worse stage |
| Canonical.StageBoundaryExamples | models/egfr_canonical.py:53-64 | 90 is G1 and 89.9 is G2; 60 is G2; 15 is G4 and 14.9 is G5 |
| Canonical.AttentionMatchesStage | models/egfr_canonical.py:66-68 | attention is needed iff the value is below 60, that is, iff the stage is neither G1 nor G2 |
| Canonical.RiskMatchesStage | models/egfr_canonical.py:70-79 | Low iff G1, Low-Moderate iff G2, Moderate-High iff G3a or G3b, High iff G4 or G5, and High iff the value is below 30 |
| Hl7Parser.GroupsPartitionLines | ingest/hl7_parser.py:15-33 | no message group is empty, every group after the first starts with an MSH line and no later line of a group is one, and the groups flatten back to exactly the non-blank trimmed lines, in order; no groups iff no such lines |
| Hl7Parser.FeedKeeps | ingest/hl7_parser.py:19-29 | one turn of the line loop keeps the splitter invariant and sets aside the trimmed line unless it is blank |
| Hl7Parser.FeedAllKeeps | ingest/hl7_parser.py:18-29 | the line loop keeps the splitter invariant, and closed groups plus the open group are the non-blank trimmed lines seen so far |
| Hl7Parser.SplitMessages | ingest/hl7_parser.py:14-33 | the loop computes the message texts, one per group, each the group's lines joined by newlines |
| Hl7Parser.MessageTextLines | ingest/hl7_parser.py:26-33 | splitting a message text on newlines gives back its group of lines |
| Hl7Parser.NoGroupsIffBlank | ingest/hl7_parser.py:15-36 | there are no messages iff the content is entirely whitespace |
| Hl7Parser.Hl7 | ingest/hl7_parser.py:120-128 | a successful parse has at least one record |
| Hl7Parser.NoMessagesIffBlank | ingest/hl7_parser.py:35-128 | the parse fails with "No HL7 messages found in content" iff the content is blank |
| Hl7Parser.NoResultsIffNoMessageYields | ingest/hl7_parser.py:120-128 | the parse fails with "No valid results extracted ..." iff there are messages and none of them yields a record |
| Hl7Parser.FirstPid | ingest/hl7_parser.py:47-52 | the chosen segment is a PID with no PID before it, that is the first PID; none iff no segment is a PID |
| Hl7Parser.FindPid | ingest/hl7_parser.py:48-52 | the search loop finds that first PID segment |
| Hl7Parser.Obx | ingest/hl7_parser.py:58-62 | exactly the OBX segments are collected |
| Hl7Parser.CollectObx | ingest/hl7_parser.py:59-62 | the collecting loop yields the OBX segments in order |
| Hl7Parser.FirstObrTime | ingest/hl7_parser.py:91-95 | the time is OBR-7 of the first OBR segment that has it; none iff no OBR segment has a field 7 |
| Hl7Parser.FindObrTime | ingest/hl7_parser.py:91-95 | the search loop gives the OBR-7 of the first OBR segment that has one, "" when none has |
| Hl7Parser.FindTimestamp | ingest/hl7_parser.py:91-99 | run for record k of message i, it gives that OBR-7, or the clock reading taken for that record when it is missing or empty |
| Hl7Parser.TimestampFromFirstObr | ingest/hl7_parser.py:91-99 | the timestamp is that of the first OBR segment carrying field 7, or, if that is empty, the clock reading for the record at hand |
| Hl7Parser.SegmentRecordsShape | ingest/hl7_parser.py:54-109 | a message without PID or without OBX yields nothing; otherwise one record per OBX in order, each with the message's patient id, the k-th record's own timestamp (OBR-7 or its own clock reading) and the OBX's own code, value and unit |
| Hl7Parser.SameMessageSharesPatientAndTime | ingest/hl7_parser.py:69-99 | all records of one message have the same patient id; with a non-empty OBR-7 they all have it as timestamp, and without one each record has the clock reading taken for it |
| Hl7Parser.ObxRecordFields | ingest/hl7_parser.py:101-107 | the record's five fields are the patient id, code, value, unit and timestamp that were extracted |
| Hl7Parser.TestCodeShape | ingest/hl7_parser.py:75-77 | the test code holds no '^', is the text of OBX-3's first component up to its first '^', and is "UNKNOWN" without OBX-3 |
| Hl7Parser.DefaultTestInfo | ingest/hl7_parser.py:75-77 | the default "UNKNOWN^UNKNOWN" gives the code "UNKNOWN" |
| Hl7Parser.ResultValueCases | ingest/hl7_parser.py:80-85 | None iff OBX-5 is absent; a number iff its first component is non-empty and converts; otherwise that text itself ("" included) |
| Hl7Parser.ParseMessage | ingest/hl7_parser.py:43-118 | the per-message loop yields that message's records, and nothing if the message does not decode |
| Hl7Parser.RecordCount | ingest/hl7_parser.py:69-109 | the number of records is the number of OBX segments across messages that have a PID |
| Hl7Parser.AllRecordsEmpty | ingest/hl7_parser.py:40-121 | there are no records iff no message yields one |
| Hl7Parser.RecordsInMessageOrder | ingest/hl7_parser.py:42-118 | records keep message order: the records of earlier messages followed by those of message i are a prefix of all records |
| Hl7Parser.ParseHl7 | ingest/hl7_parser.py:8-128 | the method computes the whole parse: the messages, their records in order, and the two failures |
| Hl7Parser.ParseHl7Single | ingest/hl7_parser.py:130-136 | fails as the full parse fails, and otherwise returns its first record |
| CsvParser.FirstPresent | ingest/csv_parser.py:21-28 | the index found is the first alias that is a column; none iff no alias is |
| CsvParser.Lookup | ingest/csv_parser.py:21-92 | the value is the cell of the first alias present in the row, or the default when none is |
| CsvParser.Chain3 | ingest/csv_parser.py:44-52 | the three-way if/elif chain computes that first-present lookup |
| CsvParser.ResultValueChain | ingest/csv_parser.py:54-70 | the value comes from the first present result column only, is 0 when that cell does not convert, and 0 when no column is present |
| CsvParser.ResultValueCases | ingest/csv_parser.py:54-70 | no result column gives 0; a first present column that converts gives its number |
| CsvParser.FirstResultColumnOnly | ingest/csv_parser.py:56-60 | a non-numeric "Result" cell gives 0, whatever the later alias columns hold |
| CsvParser.PatientNameParts | ingest/csv_parser.py:30-41 | with PATIENT_LAST and PATIENT_FIRST the id is last^first^id, else with Patient_Last and Patient_First likewise, empty parts become "Unknown"; with no name pair it is the id alone |
| CsvParser.BareRowDefaults | ingest/csv_parser.py:27-92 | a row with none of the alias columns gets "UNKNOWN", "98979-8", 0, "mL/min/1.73m2" and "2025-08-06T12:00:00Z" |
| CsvParser.BuildPatientName | ingest/csv_parser.py:30-41 | the name branches compute the composite patient id |
| CsvParser.ExtractResultValue | ingest/csv_parser.py:54-70 | the result-column branches compute the value of the first present result column, 0 when it does not convert |
| CsvParser.RowRecord | ingest/csv_parser.py:16-101 | the per-row chains compute the row's record |
| CsvParser.ParseCsv | ingest/csv_parser.py:7-108 | fails iff the reader fails; otherwise exactly one record per row, in row order |
| CsvParser.ZipKeys | ingest/csv_parser.py:125 | the zipped row has exactly the header names as keys |
| CsvParser.ZipLastWins | ingest/csv_parser.py:125 | a header maps to the value at its last position |
| CsvParser.SimplePatientIdParts | ingest/csv_parser.py:128-133 | the simple parser's id is LAST^FIRST^MRN with defaults "Unknown", "Unknown", "UNKNOWN" |
| CsvParser.SimpleRowsCount | ingest/csv_parser.py:122-138 | one record per data line with at least as many fields as headers; shorter lines are skipped |
| CsvParser.SimpleRowsFailure | ingest/csv_parser.py:135-143 | one kept line whose result does not convert fails the whole loop |
| CsvParser.CsvSimpleFewLines | ingest/csv_parser.py:115-117 | fewer than two lines give no records |
| CsvParser.CsvSimpleGivesUp | ingest/csv_parser.py:135-143 | a conversion failure on any kept line makes the whole call return no records |
| CsvParser.ParseCsvSimple | ingest/csv_parser.py:110-143 | the line loop computes the simple parse |
| LgcParser.ParseLgcEgfr | ingest/lgc_egfr_parser.py:5-62 | the entry loop computes the LGC parse, its failures included |
| LgcParser.LabResultsTakesPrecedence | ingest/lgc_egfr_parser.py:20 | the test list is labResults when present, else testResults, else empty |
| LgcParser.EmptyLabResultsFails | ingest/lgc_egfr_parser.py:20-23 | an empty labResults fails with "No test results found", even when testResults has entries |
| LgcParser.SelectionPredicate | ingest/lgc_egfr_parser.py:26-54 | an entry is skipped iff its upper-cased name contains neither "EGFR" nor "GLOMERULAR" and its code is not "EGFR001"; a selected entry yields its record or its error |
| LgcParser.ScanShape | ingest/lgc_egfr_parser.py:26-54 | one record per selected entry, each with the composite patient id, the shared timestamp, "LGC" and "final" |
| LgcParser.ScanPrefix | ingest/lgc_egfr_parser.py:26-54 | records keep entry order: the entries before any point scan to a prefix of the records |
| LgcParser.ScanPlacesEntry | ingest/lgc_egfr_parser.py:26-54 | a selected entry k contributes the record built from its own fields, at the position after the records of the selected entries before it |
| LgcParser.EntryShape | ingest/lgc_egfr_parser.py:39-53 | a selected entry's record has that shape |
| LgcParser.PatientIdParts | ingest/lgc_egfr_parser.py:40 | the patient id is lastName^firstName^dob, with "UNK" for each missing part |
| LgcParser.TestCodeCases | ingest/lgc_egfr_parser.py:37-44 | the code is coding[0].code; "98979-8" without coding, with an empty coding list, or without a code |
| LgcParser.DefaultReferenceRange | ingest/lgc_egfr_parser.py:48 | with no bounds the range is "90-120" |
| LgcParser.BadValueFails | ingest/lgc_egfr_parser.py:46-57 | a selected entry whose value does not convert fails the whole parse rather than being skipped |
| LgcParser.ScanFails | ingest/lgc_egfr_parser.py:26-57 | the first failing entry's error is the parse's error |
| LgcParser.ScanFailureAnywhere | ingest/lgc_egfr_parser.py:26-57 | any failing entry makes the scan fail |
| LgcParser.NothingSelected | ingest/lgc_egfr_parser.py:26-54 | when every entry is skipped the scan yields no records |
| LgcParser.NoneSelectedFails | ingest/lgc_egfr_parser.py:59-60 | a non-empty list with no selected entry fails with "No eGFR results found in LGC data" |
| QuestParser.ParseQuestEgfr | ingest/quest_egfr_parser.py:6-58 | the row loop computes the Quest parse, its failures included |
| QuestParser.QuestRowCases | ingest/quest_egfr_parser.py:15-44 | a row yields a record iff it is an eGFR row with a non-empty numeric result; that record has "98979-8", "Quest", "final", the MRN and the parsed number |
| QuestParser.QuestRecordFields | ingest/quest_egfr_parser.py:32-43 | a kept row's record has the MRN (default "UNKNOWN"), the parsed number, "98979-8", "Quest" and "final" |
| QuestParser.MissingResultIsZero | ingest/quest_egfr_parser.py:26 | a row without NUMERIC_RESULT counts as "0" |
| QuestParser.QuestRecordsShape | ingest/quest_egfr_parser.py:15-50 | one record per kept row, each with the fixed code, lab and status |
| QuestParser.QuestRecordsPrefix | ingest/quest_egfr_parser.py:15-44 | records keep row order: a prefix of the rows gives a prefix of the records |
| QuestParser.QuestFailsIffNothingKept | ingest/quest_egfr_parser.py:52-58 | once the reader succeeds, the parse fails iff no row is kept |
| Transformer.NormalizeResult | normalize/transformer.py:8-16 | defined iff all five input keys are present; the output has exactly the four keys; a failure names the first missing key |
| Transformer.NormalizeRoundTrip | normalize/transformer.py:8-16 | each of the five input values reappears unchanged in its nested place |
| Transformer.ExtraKeysDropped | normalize/transformer.py:8-16 | keys beyond the five do not affect the output |
| FhirBuilder.BuildFhirOutput | output/fhir_builder.py:4-15 | output exists only when test_name, result_value and units are all present |
| FhirBuilder.BuildsWhenKeysPresent | output/fhir_builder.py:4-15 | with those keys and a convertible value the library's resources are returned |
| Pipeline.EGFRDemoPipeline.constructor | egfr_demo_pipeline.py:17-21 | the vendor table maps "lgc" and "quest" to their parsers |
| Pipeline.EGFRDemoPipeline.ProcessVendorData | egfr_demo_pipeline.py:23-97 | the method with its two loops computes the batch |
| Pipeline.VendorDispatch | egfr_demo_pipeline.py:31-40 | dispatch ignores case over "lgc" and "quest"; any other name fails with "Unsupported vendor: " before parsing |
| Pipeline.ParseFailurePropagates | egfr_demo_pipeline.py:35-40 | a parser failure is the batch's failure, unchanged |
| Pipeline.ValidationPartitions | egfr_demo_pipeline.py:46-62 | each raw record gives exactly one canonical result or one error entry, so results plus errors number the raw records; no error entry is empty |
| Pipeline.ValidationEnriches | egfr_demo_pipeline.py:46-56 | every canonical result carries a value in range with the canonical unit, and stage, attention flag and risk level recomputed from that value |
| Pipeline.ValidationKeepsOrder | egfr_demo_pipeline.py:46-62 | results and errors keep raw-record order |
| Pipeline.EnrichIsEnriched | egfr_demo_pipeline.py:49-54 | stage, attention flag and risk level are recomputed from the record's own value, which is in range with the canonical unit |
| Pipeline.NothingValidIffAllFail | egfr_demo_pipeline.py:46-65 | there are no canonical results iff every raw record fails validation |
| Pipeline.FailsIffNothingValidates | egfr_demo_pipeline.py:64-65 | once parsing succeeds, the batch fails iff no record validates |
| Pipeline.FhirAtMostOnePerResult | egfr_demo_pipeline.py:68-87 | at most one FHIR entry per canonical result |
| Pipeline.FhirNeverBuilt | egfr_demo_pipeline.py:72-87 | the dict given to the builder lacks "test_name", so no FHIR entry is ever made |
| Pipeline.BatchSummary | egfr_demo_pipeline.py:89-97 | vendor upper-cased; raw_count is the number parsed; validated plus errors is raw_count; every result is enriched; at most one FHIR entry per result, in fact none; epic_ready is false |

## Left out

- Tokenisation is foreign code: `pandas.read_csv`, `csv.DictReader`, `json.loads` and `hl7.parse` are parameters.
- `Foreign.Library.decodeHl7` stands for `hl7.parse(text).segments()`. In python-hl7, `Message.segments` takes a required segment id. If the installed library behaves that way, every message raises `TypeError` and is skipped (`ingest/hl7_parser.py:116-118`), so `parse_hl7` always fails with "No valid results extracted ...". The model covers that case as `decodeHl7` giving `None` for every message; every HL7 lemma holds for it. CSV quoting, pandas type inference and NaN, JSON number formats, and HL7 escape and encoding rules are not modelled. CSV cells are text: `Row` cannot hold Python's `None`. `csv.DictReader` gives `None` for the cells a short row lacks. A `None` TEST_NAME makes `.upper()` raise (`ingest/quest_egfr_parser.py:17`), and the outer handler turns that into a failure of the whole Quest parse (`ingest/quest_egfr_parser.py:57-58`). The model has that outcome only as `readDictRows` giving `None`. A `None` in another cell, such as MRN, would be copied into the record as `None`; the model has no such record.
- `float()` and `str()` are parameters: IEEE floats, "nan" and "inf" are not modelled, and values are `real`.
- `datetime.now()` is a parameter giving an arbitrary reading for each call: the reading for record k of message i is `now(i, k)`. That readings increase over time is not modelled; logging and `print` are left out, and so is `demonstrate_vendor_agnostic_processing`, which prints around two calls of `process_vendor_data`.
- `Lower`/`Upper` map ASCII letters only; Python's full Unicode case mapping is not modelled.
- Pydantic version 1 coercions (numbers into `str` fields) are not modelled; validation follows version 2.
- Validation errors are kept as structured field errors; the text of `str(e)` is not modelled.
- Pipeline.Process: the failure for no valid records stops before the ". Errors: [...]" list that follows it, because the error texts are not modelled.
- Exception messages wrapped by the parsers keep their fixed parts; the text Python appends from an inner exception (`{e}`) is not modelled, except that the HL7 and Quest wrappers keep the inner fixed message.
- The FHIR resource construction (`Observation.construct`, `DiagnosticReport.construct`, ids and serialisation) is a parameter; only the keys the builder reads are modelled.
- `pipeline.py` (YAML, file reads and HTTP), `ui.py`, `main.py`, `db.py` and `models.py` are not part of this model.
