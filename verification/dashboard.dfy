/** The operator dashboard's one write to the stored cases. */
module Dashboard {

  import Webhook

  /**
   The dashboard's "Escalate to Expert" button (`UPDATE cases SET escalated
   = 1 WHERE id = ?`): the chosen case is flagged, every other case and
   every other field is left as it was.
   */
  function EscalateCase(cases: seq<Webhook.Case>, id: nat): (r: seq<Webhook.Case>)
    ensures |r| == |cases|
    ensures forall i :: 0 <= i < |r| ==> r[i].escalated == (cases[i].escalated || cases[i].id == id)
    ensures forall i :: 0 <= i < |r| ==> r[i].(escalated := cases[i].escalated) == cases[i]
  {
    seq(|cases|, i requires 0 <= i < |cases| =>
      if cases[i].id == id then cases[i].(escalated := true) else cases[i])
  }

  /** Escalation only ever turns flags on, and doing it twice is doing it once. */
  lemma EscalateMonotone(cases: seq<Webhook.Case>, id: nat)
    ensures forall i :: 0 <= i < |cases| && cases[i].escalated ==> EscalateCase(cases, id)[i].escalated
    ensures EscalateCase(EscalateCase(cases, id), id) == EscalateCase(cases, id)
  {
  }
}
