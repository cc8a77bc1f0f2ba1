/**
 * `egfr_demo_pipeline.py`: the vendor-agnostic batch. A vendor name picks a
 * parser; every parsed record is validated into the canonical model on its
 * own (a failure becomes an error entry, not a failed batch), enriched with
 * the stage, attention flag and risk tier, and handed to the FHIR builder.
 */
module Pipeline {
  import opened Wrappers
  import opened Text
  import opened Values
  import Foreign
  import Canonical
  import LgcParser
  import QuestParser
  import Transformer
  import FhirBuilder

  /** The parsers the pipeline can dispatch to. */
  datatype Vendor = Lgc | Quest

  /** The table `__init__` installs: lower-case vendor names to parsers. */
  const ParserTable: map<string, Vendor> := map["lgc" := Lgc, "quest" := Quest]

  const UnsupportedVendor := "Unsupported vendor: "
  const NoValidResults := "No valid results after normalization"

  /** The summary `process_vendor_data` returns. */
  datatype BatchResult = BatchResult(
    vendor: string,
    rawCount: nat,
    validatedCount: nat,
    validationErrors: seq<seq<Canonical.FieldError>>,
    canonicalResults: seq<Record>,
    fhirResources: seq<Value>,
    epicReady: bool)

  function Parse(v: Vendor, data: string, lib: Foreign.Library): Result<seq<Record>, string> {
    match v
    case Lgc => LgcParser.Lgc(data, lib)
    case Quest => QuestParser.Quest(data, lib)
  }

  /** `canonical.dict()` with the three clinical insights added. */
  function Enrich(c: Canonical.CanonicalResult): Record {
    Canonical.AsRecord(c)
      ["clinical_stage" := Str(Canonical.ClinicalStage(c.resultValue).Label())]
      ["needs_attention" := Bool(Canonical.NeedsClinicalAttention(c.resultValue))]
      ["risk_level" := Str(Canonical.RiskLevel(c.resultValue).Label())]
  }

  /** The two lists the validation loop fills. */
  datatype Validation = Validation(results: seq<Record>, errors: seq<seq<Canonical.FieldError>>)

  /** One turn of the validation loop: a record either validates or leaves its errors. */
  function ValidateStep(acc: Validation, raw: Record, lib: Foreign.Library): Validation {
    match Canonical.Construct(raw, lib)
    case Success(c) => Validation(acc.results + [Enrich(c)], acc.errors)
    case Failure(e) => Validation(acc.results, acc.errors + [e])
  }

  function ValidateAll(raws: seq<Record>, lib: Foreign.Library): Validation {
    if |raws| == 0 then Validation([], [])
    else ValidateStep(ValidateAll(raws[..|raws| - 1], lib), raws[|raws| - 1], lib)
  }

  /** One turn of the FHIR loop: a result the builder rejects is skipped. */
  function FhirStep(acc: seq<Value>, result: Record, lib: Foreign.Library): seq<Value> {
    match Transformer.NormalizeResult(result)
    case Failure(_) => acc
    case Success(n) =>
      match FhirBuilder.BuildFhirOutput(n, lib)
      case None => acc
      case Some(bundle) => acc + [bundle]
  }

  function FhirAll(results: seq<Record>, lib: Foreign.Library): seq<Value> {
    if |results| == 0 then [] else FhirStep(FhirAll(results[..|results| - 1], lib), results[|results| - 1], lib)
  }

  /** `process_vendor_data` as a function of the parser table and its inputs. */
  function Process(parsers: map<string, Vendor>, vendor: string, data: string, lib: Foreign.Library): Result<BatchResult, string> {
    var key := Lower(vendor);
    if key !in parsers then Failure(UnsupportedVendor + vendor)
    else
      match Parse(parsers[key], data, lib)
      case Failure(e) => Failure(e)
      case Success(raws) =>
        var v := ValidateAll(raws, lib);
        if v.results == [] then Failure(NoValidResults)
        else
          var fhir := FhirAll(v.results, lib);
          Success(BatchResult(Upper(vendor), |raws|, |v.results|, v.errors, v.results, fhir, |fhir| > 0))
  }

  lemma ValidateAllStep(raws: seq<Record>, i: nat, lib: Foreign.Library)
    requires i < |raws|
    ensures ValidateAll(raws[..i + 1], lib) == ValidateStep(ValidateAll(raws[..i], lib), raws[i], lib)
  {
    assert raws[..i + 1][..i] == raws[..i];
  }

  lemma FhirAllStep(results: seq<Record>, i: nat, lib: Foreign.Library)
    requires i < |results|
    ensures FhirAll(results[..i + 1], lib) == FhirStep(FhirAll(results[..i], lib), results[i], lib)
  {
    assert results[..i + 1][..i] == results[..i];
  }

  class EGFRDemoPipeline {
    var vendorParsers: map<string, Vendor>

    constructor()
      ensures vendorParsers == ParserTable
    {
      vendorParsers := ParserTable;
    }

    method ProcessVendorData(vendor: string, data: string, lib: Foreign.Library) returns (r: Result<BatchResult, string>)
      ensures r == Process(vendorParsers, vendor, data, lib)
    {
      var key := Lower(vendor);
      if key !in vendorParsers {
        return Failure(UnsupportedVendor + vendor);
      }
      var parsed: Result<seq<Record>, string>;
      match vendorParsers[key] {
        case Lgc => parsed := LgcParser.ParseLgcEgfr(data, lib);
        case Quest => parsed := QuestParser.ParseQuestEgfr(data, lib);
      }
      if parsed.Failure? {
        return Failure(parsed.error);
      }
      var raws := parsed.value;

      var canonicalResults: seq<Record> := [];
      var validationErrors: seq<seq<Canonical.FieldError>> := [];
      for i := 0 to |raws|
        invariant Validation(canonicalResults, validationErrors) == ValidateAll(raws[..i], lib)
      {
        ValidateAllStep(raws, i, lib);
        var canonical := Canonical.Construct(raws[i], lib);
        if canonical.Success? {
          canonicalResults := canonicalResults + [Enrich(canonical.value)];
        } else {
          validationErrors := validationErrors + [canonical.error];
        }
      }
      assert raws[..|raws|] == raws;
      if canonicalResults == [] {
        return Failure(NoValidResults);
      }

      var fhirResources: seq<Value> := [];
      for i := 0 to |canonicalResults|
        invariant fhirResources == FhirAll(canonicalResults[..i], lib)
      {
        FhirAllStep(canonicalResults, i, lib);
        // The nested dict built here is the one `normalize_result` builds.
        var normalized := Transformer.NormalizeResult(canonicalResults[i]);
        if normalized.Success? {
          var bundle := FhirBuilder.BuildFhirOutput(normalized.value, lib);
          if bundle.Some? {
            fhirResources := fhirResources + [bundle.value];
          }
        }
      }
      assert canonicalResults[..|canonicalResults|] == canonicalResults;
      return Success(BatchResult(Upper(vendor), |raws|, |canonicalResults|, validationErrors,
                                 canonicalResults, fhirResources, |fhirResources| > 0));
    }
  }

  // ------------------------------------------------------------ properties

  /**
   * Dispatch ignores case: "lgc" and "quest" in any capitalisation pick their
   * parser, and any other name fails before anything is parsed.
   */
  lemma VendorDispatch(vendor: string, data: string, lib: Foreign.Library)
    ensures Lower(vendor) == "lgc" ==> Process(ParserTable, vendor, data, lib) == ProcessParsed(vendor, LgcParser.Lgc(data, lib), lib)
    ensures Lower(vendor) == "quest" ==> Process(ParserTable, vendor, data, lib) == ProcessParsed(vendor, QuestParser.Quest(data, lib), lib)
    ensures Lower(vendor) != "lgc" && Lower(vendor) != "quest" ==>
      Process(ParserTable, vendor, data, lib) == Failure(UnsupportedVendor + vendor)
  {
  }

  /** What happens after a parser has run. */
  function ProcessParsed(vendor: string, parsed: Result<seq<Record>, string>, lib: Foreign.Library): Result<BatchResult, string> {
    match parsed
    case Failure(e) => Failure(e)
    case Success(raws) =>
      var v := ValidateAll(raws, lib);
      if v.results == [] then Failure(NoValidResults)
      else
        var fhir := FhirAll(v.results, lib);
        Success(BatchResult(Upper(vendor), |raws|, |v.results|, v.errors, v.results, fhir, |fhir| > 0))
  }

  /** A canonical result carries insights recomputed from its own validated value. */
  predicate Enriched(r: Record) {
    "result_value" in r && r["result_value"].Num?
    && var v := r["result_value"].n;
    Canonical.MinEgfr <= v <= Canonical.MaxEgfr
    && "unit" in r && r["unit"] == Str(Canonical.CanonicalUnit)
    && "clinical_stage" in r && r["clinical_stage"] == Str(Canonical.ClinicalStage(v).Label())
    && "needs_attention" in r && r["needs_attention"] == Bool(Canonical.NeedsClinicalAttention(v))
    && "risk_level" in r && r["risk_level"] == Str(Canonical.RiskLevel(v).Label())
  }

  lemma EnrichIsEnriched(c: Canonical.CanonicalResult)
    requires Canonical.Valid(c)
    ensures Enriched(Enrich(c))
  {
  }

  /** The validation loop sorts every raw record into exactly one of the two lists. */
  lemma {:induction false} ValidationPartitions(raws: seq<Record>, lib: Foreign.Library)
    ensures |ValidateAll(raws, lib).results| + |ValidateAll(raws, lib).errors| == |raws|
    ensures forall k :: 0 <= k < |ValidateAll(raws, lib).errors| ==> ValidateAll(raws, lib).errors[k] != []
  {
    if |raws| > 0 {
      var prev := ValidateAll(raws[..|raws| - 1], lib);
      ValidationPartitions(raws[..|raws| - 1], lib);
      var c := Canonical.Construct(raws[|raws| - 1], lib);
      if c.Success? {
        assert ValidateAll(raws, lib) == Validation(prev.results + [Enrich(c.value)], prev.errors);
      } else {
        assert ValidateAll(raws, lib) == Validation(prev.results, prev.errors + [c.error]);
      }
    }
  }

  /** Every canonical result is a validated record enriched from its own value. */
  lemma {:induction false} ValidationEnriches(raws: seq<Record>, lib: Foreign.Library)
    ensures forall k :: 0 <= k < |ValidateAll(raws, lib).results| ==> Enriched(ValidateAll(raws, lib).results[k])
  {
    if |raws| > 0 {
      var prev := ValidateAll(raws[..|raws| - 1], lib);
      ValidationEnriches(raws[..|raws| - 1], lib);
      var c := Canonical.Construct(raws[|raws| - 1], lib);
      if c.Success? {
        var all := ValidateAll(raws, lib).results;
        EnrichIsEnriched(c.value);
        assert all == prev.results + [Enrich(c.value)];
        forall k | 0 <= k < |all|
          ensures Enriched(all[k])
        {
          if k < |prev.results| {
            assert all[k] == prev.results[k];
          } else {
            assert all[k] == Enrich(c.value);
          }
        }
      } else {
        assert ValidateAll(raws, lib).results == prev.results;
      }
    }
  }

  /** Canonical results keep raw-record order: a prefix of the records validates to a prefix of the results. */
  lemma {:induction false} ValidationKeepsOrder(raws: seq<Record>, m: nat, lib: Foreign.Library)
    requires m <= |raws|
    ensures ValidateAll(raws[..m], lib).results <= ValidateAll(raws, lib).results
    ensures ValidateAll(raws[..m], lib).errors <= ValidateAll(raws, lib).errors
  {
    if m < |raws| {
      assert raws[..|raws| - 1][..m] == raws[..m];
      ValidationKeepsOrder(raws[..|raws| - 1], m, lib);
    } else {
      assert raws[..m] == raws;
    }
  }

  /** No canonical result at all exactly when every record fails validation. */
  lemma {:induction false} NothingValidIffAllFail(raws: seq<Record>, lib: Foreign.Library)
    ensures ValidateAll(raws, lib).results == [] <==> forall k :: 0 <= k < |raws| ==> Canonical.Construct(raws[k], lib).Failure?
  {
    if |raws| > 0 {
      NothingValidIffAllFail(raws[..|raws| - 1], lib);
      assert forall k :: 0 <= k < |raws| - 1 ==> raws[..|raws| - 1][k] == raws[k];
    }
  }

  /** At most one FHIR entry per canonical result. */
  lemma {:induction false} FhirAtMostOnePerResult(results: seq<Record>, lib: Foreign.Library)
    ensures |FhirAll(results, lib)| <= |results|
  {
    if |results| > 0 {
      FhirAtMostOnePerResult(results[..|results| - 1], lib);
    }
  }

  /**
   * The builder reads "test_name" and "units", which the nested dict it is
   * given never has, so every build is skipped and no FHIR entry is made.
   */
  lemma {:induction false} FhirNeverBuilt(results: seq<Record>, lib: Foreign.Library)
    ensures FhirAll(results, lib) == []
  {
    if |results| > 0 {
      FhirNeverBuilt(results[..|results| - 1], lib);
      var n := Transformer.NormalizeResult(results[|results| - 1]);
      if n.Success? {
        assert "test_name" !in n.value.Keys;
      }
    }
  }

  /**
   * The batch summary: the counts add up, every canonical result is
   * enriched, there is at most one FHIR entry per result (in fact none), and
   * the batch is never marked ready for Epic.
   */
  lemma BatchSummary(vendor: string, data: string, lib: Foreign.Library)
    requires Process(ParserTable, vendor, data, lib).Success?
    ensures var b := Process(ParserTable, vendor, data, lib).value;
      var raws := Parse(ParserTable[Lower(vendor)], data, lib).value;
      b.vendor == Upper(vendor)
      && b.rawCount == |raws|
      && b.validatedCount + |b.validationErrors| == b.rawCount
      && b.validatedCount == |b.canonicalResults| > 0
      && (forall k :: 0 <= k < |b.canonicalResults| ==> Enriched(b.canonicalResults[k]))
      && |b.fhirResources| <= b.validatedCount
      && b.fhirResources == [] && !b.epicReady
  {
    var raws := Parse(ParserTable[Lower(vendor)], data, lib).value;
    ValidationPartitions(raws, lib);
    ValidationEnriches(raws, lib);
    var v := ValidateAll(raws, lib);
    FhirAtMostOnePerResult(v.results, lib);
    FhirNeverBuilt(v.results, lib);
  }

  /** Once parsing succeeds, the batch fails exactly when no record validates. */
  lemma FailsIffNothingValidates(vendor: string, data: string, lib: Foreign.Library)
    requires Lower(vendor) in ParserTable && Parse(ParserTable[Lower(vendor)], data, lib).Success?
    ensures var raws := Parse(ParserTable[Lower(vendor)], data, lib).value;
      Process(ParserTable, vendor, data, lib).Failure?
      <==> forall k :: 0 <= k < |raws| ==> Canonical.Construct(raws[k], lib).Failure?
  {
    NothingValidIffAllFail(Parse(ParserTable[Lower(vendor)], data, lib).value, lib);
  }

  /** A parser failure is the batch's failure, unchanged. */
  lemma ParseFailurePropagates(vendor: string, data: string, lib: Foreign.Library)
    requires Lower(vendor) in ParserTable && Parse(ParserTable[Lower(vendor)], data, lib).Failure?
    ensures Process(ParserTable, vendor, data, lib) == Failure(Parse(ParserTable[Lower(vendor)], data, lib).error)
  {
  }
}
