/** The webhook_events spill table and the statements that touch it (internal/database/event.go). */
module EventTable {
  import opened Base
  import opened Records

  datatype RowStatus = Pending | Processed | Failed

  datatype EventRow = EventRow(
    eventType: EventType, timestamp: int, receivedAt: int, processedAt: Option<int>,
    payload: Option<Body>, status: RowStatus, orderingKey: string, statusPriority: nat)

  /** Keyed by delivery_id, the primary key. */
  type Events = map<string, EventRow>

  function RowOf(e: OrderedEvent): EventRow {
    EventRow(TypeOf(e.body), e.timestamp, e.receivedAt, e.processedAt, Some(e.body),
             if e.processedAt.Some? then Processed else Pending,
             e.orderingKey, e.statusPriority)
  }

  /** A fetched row. Scanning a NULL payload is an error, so there is no event for one. */
  function EventOf(d: string, row: EventRow): OrderedEvent
    requires row.payload.Some?
  {
    OrderedEvent(d, row.timestamp, row.receivedAt, row.payload.value,
                 row.orderingKey, row.statusPriority, row.processedAt, true)
  }

  function StoreOne(t: Events, e: OrderedEvent): Events {
    t[e.deliveryId := RowOf(e)]
  }

  function StoreAll(t: Events, es: seq<OrderedEvent>): Events {
    if es == [] then t else StoreOne(StoreAll(t, es[..|es| - 1]), es[|es| - 1])
  }

  function SetProcessed(t: Events, d: string, now: int): Events {
    if d in t then t[d := t[d].(status := Processed, processedAt := Some(now), payload := None)] else t
  }

  function SetFailed(t: Events, d: string): Events {
    if d in t then t[d := t[d].(status := Failed)] else t
  }

  /** DELETE FROM webhook_events WHERE processed_at < cutoff; a NULL never compares. */
  predicate Expired(row: EventRow, cutoff: int) {
    row.processedAt.Some? && row.processedAt.value < cutoff
  }

  function Expire(t: Events, cutoff: int): Events {
    map d | d in t && !Expired(t[d], cutoff) :: t[d]
  }

  function PendingIds(t: Events): set<string> {
    set d | d in t && t[d].status == Pending
  }

  /** Pending rows received at or before the cutoff. */
  function ReadyIds(t: Events, cutoff: int): set<string> {
    set d | d in t && t[d].status == Pending && t[d].receivedAt <= cutoff
  }

  function KeyOf(row: EventRow): SortKey {
    SortKey(row.timestamp, row.orderingKey, row.statusPriority)
  }

  // ---- row invariant --------------------------------------------------------------

  predicate RowOk(row: EventRow) {
    && (row.status == Processed <==> row.processedAt.Some?)
    && (row.status == Pending ==> row.payload.Some?)
    && (row.payload.Some? ==> TypeOf(row.payload.value) == row.eventType)
    && !row.eventType.Unregistered?
  }

  predicate RowsOk(t: Events) {
    forall d :: d in t ==> RowOk(t[d])
  }

  lemma {:induction false} StoreAllKeepsRowsOk(t: Events, es: seq<OrderedEvent>)
    requires RowsOk(t)
    requires forall i :: 0 <= i < |es| ==> Registered(es[i].body)
    ensures RowsOk(StoreAll(t, es))
  {
    if es != [] {
      StoreAllKeepsRowsOk(t, es[..|es| - 1]);
    }
  }

  /** Event i is the last of its delivery in the batch. */
  predicate LastOfDelivery(es: seq<OrderedEvent>, i: int) {
    0 <= i < |es| && forall j :: i < j < |es| ==> es[j].deliveryId != es[i].deliveryId
  }

  lemma {:induction false} LastIsStored(t: Events, es: seq<OrderedEvent>, i: int)
    requires LastOfDelivery(es, i)
    ensures es[i].deliveryId in StoreAll(t, es) && StoreAll(t, es)[es[i].deliveryId] == RowOf(es[i])
  {
    if i < |es| - 1 {
      LastIsStored(t, es[..|es| - 1], i);
    }
  }

  lemma {:induction false} OthersAreKept(t: Events, es: seq<OrderedEvent>, d: string)
    requires forall i :: 0 <= i < |es| ==> es[i].deliveryId != d
    ensures d in StoreAll(t, es) <==> d in t
    ensures d in t ==> StoreAll(t, es)[d] == t[d]
  {
    if es != [] {
      OthersAreKept(t, es[..|es| - 1], d);
    }
  }

  lemma {:induction false} FindLast(es: seq<OrderedEvent>, d: string) returns (i: int)
    ensures (LastOfDelivery(es, i) && es[i].deliveryId == d) || forall j :: 0 <= j < |es| ==> es[j].deliveryId != d
  {
    i := |es| - 1;
    if es != [] && es[i].deliveryId != d {
      var n := i;
      i := FindLast(es[..n], d);
      assert forall j :: 0 <= j < n ==> es[..n][j] == es[j];
    }
  }

  /** What a batch upsert leaves: rows of other deliveries untouched, and for each stored
      delivery the row of its last occurrence in the batch, replacing whatever was there. */
  lemma {:induction false} StoreAllRows(t: Events, es: seq<OrderedEvent>)
    ensures forall d :: d in t ==> d in StoreAll(t, es)
    ensures forall i :: 0 <= i < |es| ==> es[i].deliveryId in StoreAll(t, es)
    ensures forall d :: d in StoreAll(t, es) ==>
              || (d in t && StoreAll(t, es)[d] == t[d] && forall i :: 0 <= i < |es| ==> es[i].deliveryId != d)
              || exists i :: LastOfDelivery(es, i) && es[i].deliveryId == d
    ensures forall i :: LastOfDelivery(es, i) ==> StoreAll(t, es)[es[i].deliveryId] == RowOf(es[i])
  {
    forall i | LastOfDelivery(es, i)
      ensures es[i].deliveryId in StoreAll(t, es) && StoreAll(t, es)[es[i].deliveryId] == RowOf(es[i])
    {
      LastIsStored(t, es, i);
    }
    forall d
      ensures d in StoreAll(t, es) <==> d in t || exists i :: LastOfDelivery(es, i) && es[i].deliveryId == d
      ensures (forall i :: 0 <= i < |es| ==> es[i].deliveryId != d)
              || exists i :: LastOfDelivery(es, i) && es[i].deliveryId == d
      ensures (forall i :: 0 <= i < |es| ==> es[i].deliveryId != d) && d in t ==> StoreAll(t, es)[d] == t[d]
    {
      var i := FindLast(es, d);
      if LastOfDelivery(es, i) && es[i].deliveryId == d {
        LastIsStored(t, es, i);
      } else {
        OthersAreKept(t, es, d);
      }
    }
  }

  /** A spilled event comes back from the table as it went in, now marked as persisted, unless a
      later event of the same delivery was stored with it. */
  lemma {:induction false} SpillRoundTrip(t: Events, es: seq<OrderedEvent>, i: int)
    requires LastOfDelivery(es, i)
    ensures es[i].deliveryId in StoreAll(t, es)
    ensures var row, e := StoreAll(t, es)[es[i].deliveryId], es[i];
            && row.payload == Some(e.body) && EventOf(e.deliveryId, row) == e.(persisted := true)
            && row.timestamp == e.timestamp && row.receivedAt == e.receivedAt && row.processedAt == e.processedAt
            && row.orderingKey == e.orderingKey && row.statusPriority == e.statusPriority
            && row.status == (if e.processedAt.None? then Pending else Processed)
            && (e.body.JobBody? ==> row.eventType == WorkflowJob)
            && (e.body.RunBody? ==> row.eventType == WorkflowRun)
  {
    StoreAllRows(t, es);
  }

  /** The retention delete removes exactly the rows processed before the cutoff, so never a
      pending or failed event, and changes none of the others. */
  lemma RetentionSparesUnprocessed(t: Events, cutoff: int, d: string)
    requires RowsOk(t) && d in t
    ensures d in Expire(t, cutoff) <==> t[d].status != Processed || t[d].processedAt.value >= cutoff
    ensures d in Expire(t, cutoff) ==> Expire(t, cutoff)[d] == t[d]
  {
    assert t[d].status == Processed <==> t[d].processedAt.Some?;
  }

  // ---- sorted, limited fetches ----------------------------------------------------

  /** `page` is a possible answer of SELECT ... ORDER BY ... LIMIT over the eligible rows:
      sorted, at most `limit` long, and short only when it holds every eligible row.
      Rows that tie on the key may come in any order. */
  ghost predicate IsPage(t: Events, eligible: set<string>, limit: nat, page: seq<string>) {
    && (forall d :: d in eligible ==> d in t)
    && (forall i :: 0 <= i < |page| ==> page[i] in eligible)
    && (forall i, j :: 0 <= i < j < |page| ==> page[i] != page[j])
    && (forall i, j :: 0 <= i < j < |page| ==> SortsBefore(KeyOf(t[page[i]]), KeyOf(t[page[j]])))
    && (forall i, d :: 0 <= i < |page| && d in eligible && d !in page ==>
          SortsBefore(KeyOf(t[page[i]]), KeyOf(t[d])))
    && |page| <= limit
    && (|page| < limit ==> forall d :: d in eligible ==> d in page)
  }

  /** The row of d comes no later than that of d' in ascending (timestamp, key, priority) order. */
  ghost predicate RowsAscend(t: Events, d: string, d': string)
    requires d in t && d' in t
  {
    Ascending(t[d].timestamp, t[d].orderingKey, t[d].statusPriority,
              t[d'].timestamp, t[d'].orderingKey, t[d'].statusPriority)
  }

  /** A page ascends, and no eligible row left out comes before a row on it. */
  ghost predicate PageAscends(t: Events, eligible: set<string>, page: seq<string>)
    requires eligible <= t.Keys && forall i :: 0 <= i < |page| ==> page[i] in t
  {
    && (forall i, j :: 0 <= i < j < |page| ==> RowsAscend(t, page[i], page[j]))
    && (forall i, d :: 0 <= i < |page| && d in eligible && d !in page ==> RowsAscend(t, page[i], d))
  }

  lemma PageIsAscending(t: Events, eligible: set<string>, limit: nat, page: seq<string>)
    requires IsPage(t, eligible, limit, page)
    ensures PageAscends(t, eligible, page)
  {
    forall i, j | 0 <= i < j < |page| ensures RowsAscend(t, page[i], page[j]) {
      SortsBeforeIsAscending(KeyOf(t[page[i]]), KeyOf(t[page[j]]));
    }
    forall i, d | 0 <= i < |page| && d in eligible && d !in page ensures RowsAscend(t, page[i], d) {
      SortsBeforeIsAscending(KeyOf(t[page[i]]), KeyOf(t[d]));
    }
  }

  /** The distinct elements of a page number as many as its length. */
  lemma {:induction false} DistinctCount<T>(page: seq<T>)
    requires forall i, j :: 0 <= i < j < |page| ==> page[i] != page[j]
    ensures |set d | d in page| == |page|
  {
    if page != [] {
      var n := |page| - 1;
      DistinctCount(page[..n]);
      assert (set d | d in page) == (set d | d in page[..n]) + {page[n]};
    }
  }

  /** A page holds min(limit, number of eligible rows) rows. */
  lemma PageLength(t: Events, eligible: set<string>, limit: nat, page: seq<string>)
    requires IsPage(t, eligible, limit, page)
    ensures |page| == Min(limit, |eligible|)
  {
    DistinctCount(page);
    var ids := set d | d in page;
    assert ids <= eligible;
    if |page| < limit {
      assert ids == eligible;
    } else {
      Subset(ids, eligible);
    }
  }
}
