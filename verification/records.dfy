/** The records the pipeline passes around and stores. */
module Records {

  import opened Wrappers

  /**
   The diagnosis object the model returns (`diagnosis_json`). Every field
   may be missing; `escalate` holds the truthiness of whatever JSON value
   the key carries, and `otherKeys` names any keys outside the schema.
   */
  datatype Diagnosis = Diagnosis(
    diagnosis: Option<string>,
    englishName: Option<string>,
    confidence: Option<int>,
    symptomsMatch: Option<seq<string>>,
    treatmentSteps: Option<seq<string>>,
    estimatedCostInr: Option<int>,
    precautions: Option<string>,
    escalate: Option<bool>,
    otherKeys: set<string>)

  /** `not diag`: the object has no keys at all. */
  predicate IsEmpty(d: Diagnosis) {
    && d.diagnosis.None? && d.englishName.None? && d.confidence.None?
    && d.symptomsMatch.None? && d.treatmentSteps.None? && d.estimatedCostInr.None?
    && d.precautions.None? && d.escalate.None? && d.otherKeys == {}
  }

  /** `diag.get("escalate")` is truthy. */
  predicate Escalates(d: Diagnosis) {
    d.escalate == Some(true)
  }

  /** `{"escalate": True, "diagnosis": marker}`, returned when the model gives nothing usable. */
  function Sentinel(marker: string): (d: Diagnosis)
    ensures Escalates(d) && !IsEmpty(d)
    ensures d.diagnosis == Some(marker)
  {
    Diagnosis(Some(marker), None, None, None, None, None, None, Some(true), {})
  }

  /**
   What `json.loads` produced: an object, or some other JSON value of which
   only its truthiness matters before the handler fails on it.
   */
  datatype JsonValue = Object(fields: Diagnosis) | NonObject(truthy: bool)
}
