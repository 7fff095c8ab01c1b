/** Ingest: the gate in front of the pipeline (handlers/webhook_handler.go). */
module Ingest {
  import opened Base
  import opened Status
  import opened Records
  import opened Pipeline
  import opened OrderingService

  /** The request's data: not JSON, JSON the event type's handler cannot decode, or decoded. */
  datatype Payload = Malformed | Undecodable | Decoded(body: Body)

  const ACCEPTED := 202
  const IGNORED := 200
  const BAD_REQUEST := 400
  const UNAVAILABLE := 503
  const INTERNAL_ERROR := 500

  function BuildEvent(deliveryId: string, body: Body, receivedAt: int): OrderedEvent {
    OrderedEvent(deliveryId, ExtractEventTimestamp(body), receivedAt, body,
                 ExtractOrderingKey(body), GetStatusPriority(body), None, false)
  }

  /** The event of a delivery: its ID, body and time of receipt as they came, not yet processed or
      stored, and the timestamp, key and priority of its body. */
  ghost predicate IsDelivery(e: OrderedEvent, deliveryId: string, body: Body, receivedAt: int) {
    && e.deliveryId == deliveryId && e.body == body && e.receivedAt == receivedAt
    && e.processedAt == None && !e.persisted
    && WellFormed(e) && Fresh(e)
    && (body.JobBody? ==>
          && e.timestamp == body.job.row.createdAt && e.orderingKey == "job_" + Decimal(body.job.id)
          && e.statusPriority == Rank(Job, body.job.row.status))
    && (body.RunBody? ==>
          && e.timestamp == body.run.row.createdAt && e.orderingKey == "run_" + Decimal(body.run.id)
          && e.statusPriority == Rank(Run, body.run.row.status))
  }

  /** Only a decoded delivery of a registered type, with an ID, reaches the queue, as
      one event at its end; every other outcome leaves the service as it was. */
  method IngestDelivery(service: EventOrderingService, eventType: Option<EventType>, deliveryId: string,
                        payload: Payload, receivedAt: int)
    returns (status: int)
    requires service.Valid()
    requires eventType.Some? && payload.Decoded? ==> TypeOf(payload.body) == eventType.value
    modifies service
    ensures service.Valid()
    ensures status == 202 <==>
            && eventType.Some? && deliveryId != "" && payload.Decoded?
            && Registered(payload.body) && |old(service.ch)| < service.c.capacity
    ensures status == 202 ==>
              var n := |old(service.ch)|;
              && |service.ch| == n + 1 && service.ch[..n] == old(service.ch)
              && IsDelivery(service.ch[n], deliveryId, payload.body, receivedAt)
              && service.m == Do(service.c, old(service.m), Enqueue(service.ch[n]))
    ensures status != 202 ==> service.m == old(service.m) && service.ch == old(service.ch)
    ensures status == 200 <==>
            eventType.Some? && deliveryId != "" && !payload.Malformed? && eventType.value.Unregistered?
    ensures status == 503 || status == 500 ==> |old(service.ch)| >= service.c.capacity
    ensures status == 500 ==> service.cancelled
    ensures status in {200, 202, 400, 500, 503}
  {
    if eventType.None? {
      return BAD_REQUEST;
    }
    if deliveryId == "" {
      return BAD_REQUEST;
    }
    if payload.Malformed? {
      return BAD_REQUEST;
    }
    if eventType.value.Unregistered? {
      return IGNORED;
    }
    if payload.Undecodable? {
      return BAD_REQUEST;
    }
    var error := service.AddEvent(BuildEvent(deliveryId, payload.body, receivedAt));
    if error.None? {
      return ACCEPTED;
    }
    return if error.value.QueueFull? then UNAVAILABLE else INTERNAL_ERROR;
  }
}
