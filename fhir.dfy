/**
 * `output/fhir_builder.py`, as far as the orchestrator depends on it: which
 * keys the builder reads before the FHIR library builds the Observation and
 * DiagnosticReport. The construction itself is a parameter of the model.
 */
module FhirBuilder {
  import opened Wrappers
  import opened Values
  import Foreign

  /**
   * `build_fhir_output`: reads "test_name", converts "result_value" with
   * `float()` and reads "units", in that order; `None` where one of these
   * raises, the library's resources otherwise.
   */
  function BuildFhirOutput(data: Record, lib: Foreign.Library): (r: Option<Value>)
    ensures r.Some? ==> "test_name" in data && "result_value" in data && "units" in data
  {
    if "test_name" !in data then None
    else if "result_value" !in data then None
    else if Foreign.Float(data["result_value"], lib).None? then None
    else if "units" !in data then None
    else Some(lib.constructFhir(Obj(data)))
  }

  /** With the three keys present and a convertible value, the builder does produce output. */
  lemma BuildsWhenKeysPresent(data: Record, lib: Foreign.Library)
    requires "test_name" in data && "result_value" in data && "units" in data
    requires Foreign.Float(data["result_value"], lib).Some?
    ensures BuildFhirOutput(data, lib) == Some(lib.constructFhir(Obj(data)))
  {
  }
}
