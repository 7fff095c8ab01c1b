/** The decoded records: job and run rows, webhook bodies and the ordering metadata that the
    handlers extract from them (models/models.go, handlers/workflow_*_handler.go). */
module Records {
  import opened Base
  import opened Status
  import opened Lifecycle

  datatype JobFields = JobFields(
    name: string, labels: seq<string>, htmlUrl: string, conclusion: string,
    startedAt: Option<int>, completedAt: Option<int>, runId: int)

  datatype RunFields = RunFields(
    name: string, repository: string, htmlUrl: string, displayTitle: string, conclusion: string,
    runStartedAt: Option<int>, updatedAt: Option<int>)

  type JobTable = Table<JobFields>
  type RunTable = Table<RunFields>
  type JobWrite = Write<JobFields>
  type RunWrite = Write<RunFields>

  /** The event type a delivery names; only the first two have a registered handler. */
  datatype EventType = WorkflowJob | WorkflowRun | Unregistered(name: string)

  /** A decoded webhook payload. The write's status is the webhook's `action`. */
  datatype Body =
    | JobBody(job: JobWrite)
    | RunBody(run: RunWrite)
    | OtherBody(name: string)

  function TypeOf(b: Body): EventType {
    match b
    case JobBody(_) => WorkflowJob
    case RunBody(_) => WorkflowRun
    case OtherBody(name) => Unregistered(name)
  }

  predicate Registered(b: Body) {
    !b.OtherBody?
  }

  /** Whether the handler recognises the action; it answers "nothing to do" when it does not. */
  predicate KnownAction(b: Body) {
    match b
    case JobBody(w) => Known(Job, w.row.status)
    case RunBody(w) => Known(Run, w.row.status)
    case OtherBody(_) => false
  }

  function Digits(n: nat): string {
    if n < 10 then ["0123456789"[n]] else Digits(n / 10) + ["0123456789"[n % 10]]
  }

  function Decimal(n: int): string {
    if n < 0 then "-" + Digits(-n) else Digits(n)
  }

  function KeyText(k: Kind, id: int): string {
    (if k == Job then "job_" else "run_") + Decimal(id)
  }

  /** The number a string of decimal digits denotes. */
  function Value(s: string): nat {
    if s == [] then 0
    else Value(s[..|s| - 1]) * 10 + if '0' <= s[|s| - 1] <= '9' then s[|s| - 1] as int - '0' as int else 0
  }

  lemma {:induction false} DigitsRoundTrip(n: nat)
    ensures Value(Digits(n)) == n && Digits(n) != [] && Digits(n)[0] != '-'
  {
    if n >= 10 {
      DigitsRoundTrip(n / 10);
      assert Digits(n)[..|Digits(n)| - 1] == Digits(n / 10);
    }
  }

  /** The ordering key identifies the object: no two jobs or runs share one. */
  lemma OrderingKeyIdentifies(k: Kind, id: int, k': Kind, id': int)
    ensures KeyText(k, id) == KeyText(k', id') <==> k == k' && id == id'
    ensures id >= 0 ==> KeyText(k, id)[4] != '-' && Value(KeyText(k, id)[4..]) == id
  {
    DigitsRoundTrip(if id < 0 then -id else id);
    DigitsRoundTrip(if id' < 0 then -id' else id');
    if KeyText(k, id) == KeyText(k', id') {
      assert KeyText(k, id)[0] == KeyText(k', id')[0];
      assert KeyText(k, id)[4..] == Decimal(id) && KeyText(k', id')[4..] == Decimal(id');
      assert id < 0 ==> Decimal(id)[1..] == Digits(-id);
      assert id' < 0 ==> Decimal(id')[1..] == Digits(-id');
    }
  }

  function ExtractOrderingKey(b: Body): string {
    match b
    case JobBody(w) => KeyText(Job, w.id)
    case RunBody(w) => KeyText(Run, w.id)
    case OtherBody(_) => ""
  }

  function ExtractEventTimestamp(b: Body): int {
    match b
    case JobBody(w) => w.row.createdAt
    case RunBody(w) => w.row.createdAt
    case OtherBody(_) => 0
  }

  function GetStatusPriority(b: Body): nat {
    match b
    case JobBody(w) => Rank(Job, w.row.status)
    case RunBody(w) => Rank(Run, w.row.status)
    case OtherBody(_) => 0
  }

  datatype OrderedEvent = OrderedEvent(
    deliveryId: string, timestamp: int, receivedAt: int, body: Body,
    orderingKey: string, statusPriority: nat,
    processedAt: Option<int>, persisted: bool)

  /** The ordering metadata is what the handler of its type extracts from the body. */
  predicate WellFormed(e: OrderedEvent) {
    && e.timestamp == ExtractEventTimestamp(e.body)
    && e.orderingKey == ExtractOrderingKey(e.body)
    && e.statusPriority == GetStatusPriority(e.body)
  }

  /** What ORDER BY github_timestamp, ordering_key, status_priority compares. */
  datatype SortKey = SortKey(timestamp: int, orderingKey: string, statusPriority: nat)

  /** Byte-wise comparison of text columns. */
  predicate TextLE(a: string, b: string) {
    a == [] || (b != [] && (a[0] < b[0] || (a[0] == b[0] && TextLE(a[1..], b[1..]))))
  }

  predicate SortsBefore(a: SortKey, b: SortKey) {
    a.timestamp < b.timestamp ||
    (a.timestamp == b.timestamp &&
     if a.orderingKey == b.orderingKey then a.statusPriority <= b.statusPriority
     else TextLE(a.orderingKey, b.orderingKey))
  }

  lemma {:induction false} TextTotal(a: string, b: string)
    ensures TextLE(a, b) || TextLE(b, a)
    ensures TextLE(a, b) && TextLE(b, a) ==> a == b
  {
    if a != [] && b != [] {
      TextTotal(a[1..], b[1..]);
      assert a == [a[0]] + a[1..] && b == [b[0]] + b[1..];
    }
  }

  lemma {:induction false} TextTransitive(a: string, b: string, c: string)
    requires TextLE(a, b) && TextLE(b, c)
    ensures TextLE(a, c)
  {
    if a != [] && a[0] == b[0] == c[0] {
      TextTransitive(a[1..], b[1..], c[1..]);
    }
  }

  /** Text order, by the first character that differs. */
  ghost predicate Alphabetical(a: string, b: string) {
    a <= b || exists n :: 0 <= n < |a| && n < |b| && a[..n] == b[..n] && a[n] < b[n]
  }

  /** What ascending timestamp, ordering key and priority columns mean for two rows in order. */
  ghost predicate Ascending(timestamp: int, orderingKey: string, priority: nat,
                            timestamp': int, orderingKey': string, priority': nat) {
    && timestamp <= timestamp'
    && (timestamp == timestamp' ==> Alphabetical(orderingKey, orderingKey'))
    && (timestamp == timestamp' && orderingKey == orderingKey' ==> priority <= priority')
  }

  lemma {:induction false} TextIsAlphabetical(a: string, b: string)
    ensures TextLE(a, b) <==> Alphabetical(a, b)
  {
    if a != [] && b != [] && a[0] == b[0] {
      TextIsAlphabetical(a[1..], b[1..]);
      assert a[1..] <= b[1..] <==> a <= b;
      if TextLE(a, b) && !(a <= b) {
        var n :| 0 <= n < |a[1..]| && n < |b[1..]| && a[1..][..n] == b[1..][..n] && a[1..][n] < b[1..][n];
        assert a[..n + 1] == [a[0]] + a[1..][..n] && b[..n + 1] == [b[0]] + b[1..][..n];
      }
      if Alphabetical(a, b) && !(a <= b) {
        var n :| 0 <= n < |a| && n < |b| && a[..n] == b[..n] && a[n] < b[n];
        assert a[1..][..n - 1] == a[..n][1..] && b[1..][..n - 1] == b[..n][1..];
        assert a[1..][n - 1] == a[n] && b[1..][n - 1] == b[n];
      }
    } else if a != [] && b != [] {
      assert a[0] < b[0] ==> a[..0] == b[..0];
    }
  }

  /** The replay order is the ascending order of its three columns. */
  lemma SortsBeforeIsAscending(a: SortKey, b: SortKey)
    ensures SortsBefore(a, b) <==>
            Ascending(a.timestamp, a.orderingKey, a.statusPriority, b.timestamp, b.orderingKey, b.statusPriority)
  {
    TextIsAlphabetical(a.orderingKey, b.orderingKey);
  }

  /** The order the cold path replays events in is total and transitive. */
  lemma SortIsTotalPreorder(a: SortKey, b: SortKey, c: SortKey)
    ensures SortsBefore(a, b) || SortsBefore(b, a)
    ensures SortsBefore(a, b) && SortsBefore(b, c) ==> SortsBefore(a, c)
  {
    TextTotal(a.orderingKey, b.orderingKey);
    TextTotal(b.orderingKey, c.orderingKey);
    if TextLE(a.orderingKey, b.orderingKey) && TextLE(b.orderingKey, c.orderingKey) {
      TextTransitive(a.orderingKey, b.orderingKey, c.orderingKey);
    }
  }
}
