/**
 * `normalize/transformer.py`: the flat result record reshaped into the
 * nested form the FHIR step expects (patient, test, result, effective time).
 */
module Transformer {
  import opened Wrappers
  import opened Values

  /** The keys the reshaping reads, in the order Python evaluates them. */
  const InputKeys: seq<string> := ["patient_id", "test_code", "result_value", "unit", "timestamp"]
  const OutputKeys: set<string> := {"patient", "test", "result", "effectiveDateTime"}

  /** `normalize_result`; a missing key is a `KeyError` naming it. */
  function NormalizeResult(raw: Record): (r: Result<Record, string>)
    ensures r.Success? <==> forall j :: 0 <= j < |InputKeys| ==> InputKeys[j] in raw
    ensures r.Success? ==> r.value.Keys == OutputKeys
    ensures r.Failure? ==> exists j :: 0 <= j < |InputKeys| && r.error == InputKeys[j] && InputKeys[j] !in raw
                                       && forall i :: 0 <= i < j ==> InputKeys[i] in raw
  {
    assert |InputKeys| == 5 && InputKeys[0] == "patient_id" && InputKeys[1] == "test_code"
      && InputKeys[2] == "result_value" && InputKeys[3] == "unit" && InputKeys[4] == "timestamp";
    if "patient_id" !in raw then Failure("patient_id")
    else if "test_code" !in raw then Failure("test_code")
    else if "result_value" !in raw then Failure("result_value")
    else if "unit" !in raw then Failure("unit")
    else if "timestamp" !in raw then Failure("timestamp")
    else
      Success(map[
        "patient" := Obj(map["id" := raw["patient_id"]]),
        "test" := Obj(map["code" := raw["test_code"]]),
        "result" := Obj(map["value" := raw["result_value"], "unit" := raw["unit"]]),
        "effectiveDateTime" := raw["timestamp"]
      ])
  }

  /** The five input fields of a record, and nothing else. */
  function Project(raw: Record): Record {
    map k | k in raw && k in InputKeys :: raw[k]
  }

  /** Reading the nested form back into flat fields; `None` where it is not of that form. */
  function Denormalize(n: Record): Option<Record> {
    if !("patient" in n && "test" in n && "result" in n && "effectiveDateTime" in n) then None
    else if !(n["patient"].Obj? && n["test"].Obj? && n["result"].Obj?) then None
    else
      var patient := n["patient"].fields;
      var test := n["test"].fields;
      var result := n["result"].fields;
      if !("id" in patient && "code" in test && "value" in result && "unit" in result) then None
      else
        Some(map[
          "patient_id" := patient["id"],
          "test_code" := test["code"],
          "result_value" := result["value"],
          "unit" := result["unit"],
          "timestamp" := n["effectiveDateTime"]
        ])
  }

  /** Every input field comes out unchanged in its new place: the nesting reads back to the five fields. */
  lemma NormalizeRoundTrip(raw: Record)
    requires forall j :: 0 <= j < |InputKeys| ==> InputKeys[j] in raw
    ensures Denormalize(NormalizeResult(raw).value) == Some(Project(raw))
  {
    assert InputKeys[0] == "patient_id" && InputKeys[1] == "test_code"
      && InputKeys[2] == "result_value" && InputKeys[3] == "unit" && InputKeys[4] == "timestamp";
    var expected := map[
      "patient_id" := raw["patient_id"],
      "test_code" := raw["test_code"],
      "result_value" := raw["result_value"],
      "unit" := raw["unit"],
      "timestamp" := raw["timestamp"]
    ];
    assert Project(raw).Keys == expected.Keys;
    assert Project(raw) == expected;
  }

  /** Keys other than the five (such as "lab_name" or "reference_range") do not affect the result. */
  lemma ExtraKeysDropped(raw: Record)
    ensures NormalizeResult(raw) == NormalizeResult(Project(raw))
  {
    assert forall j :: 0 <= j < |InputKeys| ==> (InputKeys[j] in raw <==> InputKeys[j] in Project(raw));
  }
}
