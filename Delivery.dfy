/** What `run()` (src/main.ts) reports after posting the card to the webhook. */
module Delivery {
  import opened Results

  /** The final outcome of the post, after the retry library has done its attempts: a
      response with its status, or no response at all. */
  datatype Outcome = Responded(status: int) | NoResponse

  /** The statuses `validateStatus` admits; any other status rejects the request. */
  const AdmittedStatuses: set<int> := {200, 400, 429, 412, 502, 504}

  /** The statuses the Teams rate-limit guidance asks to retry. */
  const TransientStatuses: set<int> := {429, 412, 502, 504}

  /** One `setFailed` report. */
  datatype Report =
    | WebhookInaccurate    // "Verify your is webhook accurate."
    | RetriesExhausted     // "Exhausted retries."
    | OutsideAcceptable    // "Outside acceptable response codes."
    | Uncaught(error: Exception)  // an exception reported by the outer handler

  /** The failure reports of an admitted response: the three checks run in turn and are
      not exclusive. */
  function StatusFailures(status: int): (r: seq<Report>) {
    (if status == 400 then [WebhookInaccurate] else [])
      + (if status in TransientStatuses then [RetriesExhausted] else [])
      + (if status < 200 || status > 399 then [OutsideAcceptable] else [])
  }

  /** The failure reports of the post. A status outside the admitted set is only logged by
      the rejection handler; no response makes that handler throw when it reads the status,
      and the outer handler reports it. */
  function DeliveryFailures(d: Outcome): (r: seq<Report>)
    ensures r == [] <==> d.Responded? && (d.status == 200 || d.status !in AdmittedStatuses)
    ensures WebhookInaccurate in r <==> d == Responded(400)
    ensures RetriesExhausted in r <==> d.Responded? && d.status in TransientStatuses
    ensures OutsideAcceptable in r <==> d.Responded? && d.status in AdmittedStatuses && d.status != 200
    ensures Uncaught(ResponseMissing) in r <==> d.NoResponse?
    ensures d.NoResponse? ==> r == [Uncaught(ResponseMissing)]
    ensures |r| <= 2
    ensures OutsideAcceptable in r ==> r[|r| - 1] == OutsideAcceptable
  {
    match d
    case NoResponse => [Uncaught(ResponseMissing)]
    case Responded(status) => if status in AdmittedStatuses then StatusFailures(status) else []
  }

  /** The reports status by status: none for 200, the webhook hint then the range report
      for 400, the retry report then the range report for each transient status. */
  lemma DeliveryFailuresTable()
    ensures DeliveryFailures(Responded(200)) == []
    ensures DeliveryFailures(Responded(400)) == [WebhookInaccurate, OutsideAcceptable]
    ensures forall s | s in TransientStatuses :: DeliveryFailures(Responded(s)) == [RetriesExhausted, OutsideAcceptable]
  {
  }
}
