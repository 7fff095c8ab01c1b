/** EventOrderingService: the loops of the two workers, each carried out as a run of the
    pipeline machine (internal/services/event_ordering_service.go). */
module OrderingService {
  import opened Base
  import opened Status
  import opened Lifecycle
  import opened Records
  import opened EventTable
  import opened Database
  import opened Pipeline
  import opened PipelineInvariants
  import opened PipelineTheorems
  import opened WebhookHandler

  datatype AddError = QueueFull | Canceled

  /** Why the final flush returned. */
  datatype FlushEnd = Drained | DeadlineHit | FetchFailed

  function KeyOfEvent(e: OrderedEvent): SortKey {
    SortKey(e.timestamp, e.orderingKey, e.statusPriority)
  }

  /** In replay order. */
  predicate Sorted(log: seq<OrderedEvent>) {
    forall i, j :: 0 <= i < j < |log| ==> SortsBefore(KeyOfEvent(log[i]), KeyOfEvent(log[j]))
  }

  /** The list replays exactly the pending rows of t, each once, as they are in t. */
  ghost predicate ReplaysPending(t: Events, log: seq<OrderedEvent>) {
    && (forall i :: 0 <= i < |log| ==>
          && PendingRow(t, log[i].deliveryId) && t[log[i].deliveryId].payload.Some?
          && log[i] == EventOf(log[i].deliveryId, t[log[i].deliveryId]))
    && (forall i, j :: 0 <= i < j < |log| ==> log[i].deliveryId != log[j].deliveryId)
    && (forall d :: PendingRow(t, d) ==> Holds(log, d))
  }

  /** The state after the hot path handled an event with this outcome. */
  lemma HotEffect(c: Config, s: State, o: Outcome)
    requires Enabled(c, s, HotApply(o))
    ensures var s', e := Do(c, s, HotApply(o)), s.mem.ipc.event;
            && s'.mem.ch == s.mem.ch && s'.mem.accepted == s.mem.accepted
            && s'.mem.ipc == ICheck(s.mem.ipc.draining) && s'.fpc == s.fpc && s'.cancelled == s.cancelled
            && s'.mem.spill == (if Registered(e.body) && !o.Handled? then s.mem.spill + [e] else s.mem.spill)
            && s'.db.events == s.db.events
            && s'.db.jobs == JobsAfter(s.db.jobs, e.body, o) && s'.db.runs == RunsAfter(s.db.runs, e.body, o)
  {
  }

  // ---- the cold drain, on tables --------------------------------------------------

  /** t' is t with exactly the batch's rows no longer pending. */
  ghost predicate BatchDone(t: Events, t': Events, batch: seq<OrderedEvent>) {
    && (forall d :: PendingRow(t', d) <==> PendingRow(t, d) && !Holds(batch, d))
    && (forall d :: PendingRow(t', d) ==> t'[d] == t[d])
  }

  /** `log` has replayed, in order and each once, some of the rows pending in t0; those still
      pending in t are the others, unchanged, and none of them sorts before a replayed one. */
  ghost predicate PartlyDrained(t0: Events, t: Events, log: seq<OrderedEvent>) {
    && (forall i :: 0 <= i < |log| ==>
          && PendingRow(t0, log[i].deliveryId) && t0[log[i].deliveryId].payload.Some?
          && log[i] == EventOf(log[i].deliveryId, t0[log[i].deliveryId]))
    && (forall i, j :: 0 <= i < j < |log| ==> log[i].deliveryId != log[j].deliveryId)
    && Sorted(log)
    && (forall d :: PendingRow(t, d) <==> PendingRow(t0, d) && !Holds(log, d))
    && (forall d :: PendingRow(t, d) ==> t[d] == t0[d])
    && (forall i, d :: 0 <= i < |log| && PendingRow(t, d) ==> SortsBefore(KeyOfEvent(log[i]), KeyOf(t[d])))
  }

  lemma HoldsAppend(a: seq<OrderedEvent>, b: seq<OrderedEvent>)
    ensures forall d :: Holds(a + b, d) <==> Holds(a, d) || Holds(b, d)
  {
    forall d ensures Holds(a + b, d) <==> Holds(a, d) || Holds(b, d) {
      if Holds(a, d) {
        var i :| 0 <= i < |a| && a[i].deliveryId == d;
        assert (a + b)[i].deliveryId == d;
      }
      if Holds(b, d) {
        var i :| 0 <= i < |b| && b[i].deliveryId == d;
        assert (a + b)[|a| + i].deliveryId == d;
      }
    }
  }

  /** A fetched batch is itself such a partial drain of the table it was fetched from. */
  lemma BatchIsDrain(t: Events, limit: nat, t': Events, batch: seq<OrderedEvent>)
    requires IsFetch(t, PendingIds(t), limit, batch) && BatchDone(t, t', batch)
    ensures PartlyDrained(t, t', batch)
  {
    var page :| IsPage(t, PendingIds(t), limit, page) && FetchedFrom(t, page, batch);
    assert forall i :: 0 <= i < |batch| ==> page[i] in PendingIds(t) && batch[i].deliveryId == page[i];
    assert forall j :: 0 <= j < |batch| ==> Holds(batch, page[j]);
    forall i, d | 0 <= i < |batch| && PendingRow(t', d)
      ensures SortsBefore(KeyOfEvent(batch[i]), KeyOf(t'[d]))
    {
      assert d in PendingIds(t) && d !in page;
    }
  }

  /** Partial drains compose: the concatenation of sorted pages is sorted. */
  lemma DrainsCompose(t0: Events, t: Events, t': Events, log: seq<OrderedEvent>, batch: seq<OrderedEvent>)
    requires PartlyDrained(t0, t, log) && PartlyDrained(t, t', batch)
    ensures PartlyDrained(t0, t', log + batch)
  {
    HoldsAppend(log, batch);
    var all := log + batch;
    forall i | 0 <= i < |all|
      ensures PendingRow(t0, all[i].deliveryId) && t0[all[i].deliveryId].payload.Some?
              && all[i] == EventOf(all[i].deliveryId, t0[all[i].deliveryId])
    {
      if i >= |log| {
        assert all[i] == batch[i - |log|];
      }
    }
    forall i, j | 0 <= i < j < |all|
      ensures all[i].deliveryId != all[j].deliveryId && SortsBefore(KeyOfEvent(all[i]), KeyOfEvent(all[j]))
    {
      if i >= |log| {
        assert all[i] == batch[i - |log|] && all[j] == batch[j - |log|];
      } else if j >= |log| {
        assert all[i] == log[i] && all[j] == batch[j - |log|];
        assert PendingRow(t, all[j].deliveryId);
        assert Holds(log, log[i].deliveryId);
      }
    }
    forall i, d | 0 <= i < |all| && PendingRow(t', d)
      ensures SortsBefore(KeyOfEvent(all[i]), KeyOf(t'[d]))
    {
      if i >= |log| {
        assert all[i] == batch[i - |log|];
      }
    }
  }

  /** Replaying a page whose marks succeed lowers the number of pending rows by its length, so
      every non-empty round of a flush makes progress. */
  lemma RoundShrinksPending(t: Events, limit: nat, t': Events, batch: seq<OrderedEvent>)
    requires IsFetch(t, PendingIds(t), limit, batch) && BatchDone(t, t', batch)
    ensures |PendingIds(t')| == |PendingIds(t)| - |batch|
  {
    var page :| IsPage(t, PendingIds(t), limit, page) && FetchedFrom(t, page, batch);
    DistinctCount(page);
    FetchedIds(t, page, batch);
    PendingWithout(t, t', batch, set d | d in page);
  }

  lemma FetchedIds(t: Events, page: seq<string>, batch: seq<OrderedEvent>)
    requires FetchedFrom(t, page, batch)
    ensures forall d :: d in page <==> Holds(batch, d)
  {
    forall d | d in page ensures Holds(batch, d) {
      var i :| 0 <= i < |page| && page[i] == d;
      assert batch[i].deliveryId == d;
    }
  }

  lemma PendingWithout(t: Events, t': Events, batch: seq<OrderedEvent>, ids: set<string>)
    requires BatchDone(t, t', batch) && ids <= PendingIds(t)
    requires forall d :: d in ids <==> Holds(batch, d)
    ensures |PendingIds(t')| == |PendingIds(t)| - |ids|
  {
    forall d ensures d in PendingIds(t') <==> d in PendingIds(t) && d !in ids {
      assert PendingRow(t', d) <==> PendingRow(t, d) && !Holds(batch, d);
    }
    CardPartition(PendingIds(t), ids, PendingIds(t'));
  }

  /** What has been replayed is no more than what was pending. */
  lemma DrainedCount(t0: Events, t: Events, log: seq<OrderedEvent>)
    requires PartlyDrained(t0, t, log)
    ensures |log| <= |PendingIds(t0)|
  {
    var ids := seq(|log|, i requires 0 <= i < |log| => log[i].deliveryId);
    DistinctCount(ids);
    forall d | d in ids ensures d in PendingIds(t0) {
    }
    Subset((set d | d in ids), PendingIds(t0));
  }

  // ---- what a replay does to the typed tables -------------------------------------

  function EventsIn(log: seq<Replay>): seq<OrderedEvent> {
    seq(|log|, i requires 0 <= i < |log| => log[i].event)
  }

  /** The values present, in order. */
  function Present<T>(os: seq<Option<T>>): seq<T> {
    if os == [] then []
    else Present(os[..|os| - 1]) + if os[|os| - 1].Some? then [os[|os| - 1].value] else []
  }

  /** The write of each replayed event to workflow_jobs, if it had one and it landed. */
  function JobLandings(log: seq<Replay>): seq<Option<JobWrite>> {
    seq(|log|, i requires 0 <= i < |log| =>
      if log[i].event.body.JobBody? && !log[i].outcome.FailedClean? then Some(log[i].event.body.job) else None)
  }

  function RunLandings(log: seq<Replay>): seq<Option<RunWrite>> {
    seq(|log|, i requires 0 <= i < |log| =>
      if log[i].event.body.RunBody? && !log[i].outcome.FailedClean? then Some(log[i].event.body.run) else None)
  }

  function JobWritesOf(log: seq<Replay>): seq<JobWrite> {
    Present(JobLandings(log))
  }

  function RunWritesOf(log: seq<Replay>): seq<RunWrite> {
    Present(RunLandings(log))
  }

  /** From s to s' the cold path has handled exactly the events of `log`, in this order, and the
      typed tables have taken exactly their writes. */
  ghost predicate Replayed(s: State, s': State, log: seq<Replay>) {
    && s'.replayed == s.replayed + log
    && s'.db.jobWrites == s.db.jobWrites + JobWritesOf(log)
    && s'.db.runWrites == s.db.runWrites + RunWritesOf(log)
    && s'.db.jobs == Fold(Job, s.db.jobs, JobWritesOf(log))
    && s'.db.runs == Fold(Run, s.db.runs, RunWritesOf(log))
  }

  lemma {:induction false} PresentAppend<T>(a: seq<Option<T>>, b: seq<Option<T>>)
    ensures Present(a + b) == Present(a) + Present(b)
  {
    if b == [] {
      assert a + b == a;
    } else {
      var n := |b| - 1;
      assert (a + b)[..|a + b| - 1] == a + b[..n];
      PresentAppend(a, b[..n]);
    }
  }

  lemma LogAppend(a: seq<Replay>, b: seq<Replay>)
    ensures EventsIn(a + b) == EventsIn(a) + EventsIn(b)
    ensures JobWritesOf(a + b) == JobWritesOf(a) + JobWritesOf(b)
    ensures RunWritesOf(a + b) == RunWritesOf(a) + RunWritesOf(b)
  {
    assert JobLandings(a + b) == JobLandings(a) + JobLandings(b);
    assert RunLandings(a + b) == RunLandings(a) + RunLandings(b);
    PresentAppend(JobLandings(a), JobLandings(b));
    PresentAppend(RunLandings(a), RunLandings(b));
  }

  lemma ReplayedCompose(s: State, s1: State, s2: State, a: seq<Replay>, b: seq<Replay>)
    requires Replayed(s, s1, a) && Replayed(s1, s2, b)
    ensures Replayed(s, s2, a + b)
  {
    LogAppend(a, b);
    FoldAppend(Job, s.db.jobs, JobWritesOf(a), JobWritesOf(b));
    FoldAppend(Run, s.db.runs, RunWritesOf(a), RunWritesOf(b));
  }

  /** The flush worker has moved on, but neither handled an event nor changed a table. */
  predicate NothingHandled(s: State, s': State) {
    s'.db == s.db && s'.replayed == s.replayed
  }

  lemma ReplayedNothing(s: State, s': State)
    requires NothingHandled(s, s')
    ensures Replayed(s, s', [])
  {
  }

  lemma ReplayedBetween(s: State, s1: State, s2: State, s': State, log: seq<Replay>)
    requires NothingHandled(s, s1) && Replayed(s1, s2, log) && NothingHandled(s2, s')
    ensures Replayed(s, s', log)
  {
  }

  lemma {:induction false} PresentIsSome<T>(os: seq<Option<T>>, x: T)
    requires x in Present(os)
    ensures Some(x) in os
  {
    var n := |os| - 1;
    if x in Present(os[..n]) {
      PresentIsSome(os[..n], x);
    } else {
      assert os[n] == Some(x);
    }
  }

  // ---- the cold path's steps ------------------------------------------------------

  /** The state after the cold path handled and marked an event of a registered type. */
  lemma ColdEffect(c: Config, s: State, o: Outcome, now: int, m: Result)
    requires s.fpc.FBatch? && s.fpc.rest != [] && Registered(s.fpc.rest[0].body)
    requires OutcomeAllowed(s.fpc.rest[0].body, o)
    ensures Enabled(c, s, ColdApply(o)) && Enabled(c, Do(c, s, ColdApply(o)), ColdMark(now, m))
    ensures var s', e := Do(c, Do(c, s, ColdApply(o)), ColdMark(now, m)), s.fpc.rest[0];
            && s'.mem == s.mem && s'.cancelled == s.cancelled
            && s'.fpc == FBatch(s.fpc.round, s.fpc.rest[1..])
            && s'.finalFault == (s.finalFault || (s.fpc.round.All? && !m.Ok?))
            && s'.db.events == (if m.Lost? then s.db.events else Marked(s.db.events, e.deliveryId, o.Handled?, now))
            && s'.db.jobs == JobsAfter(s.db.jobs, e.body, o) && s'.db.runs == RunsAfter(s.db.runs, e.body, o)
  {
  }

  /** The same two steps, as a replay. */
  lemma ColdReplay(c: Config, s: State, o: Outcome, now: int, m: Result)
    requires s.fpc.FBatch? && s.fpc.rest != [] && Registered(s.fpc.rest[0].body)
    requires OutcomeAllowed(s.fpc.rest[0].body, o)
    ensures Enabled(c, s, ColdApply(o)) && Enabled(c, Do(c, s, ColdApply(o)), ColdMark(now, m))
    ensures Replayed(s, Do(c, Do(c, s, ColdApply(o)), ColdMark(now, m)), [Replay(s.fpc.rest[0], o)])
  {
    var r := Replay(s.fpc.rest[0], o);
    var s1 := Do(c, s, ColdApply(o));
    var s2 := Do(c, s1, ColdMark(now, m));
    assert s1.replayed == s.replayed + [r] && s2.replayed == s1.replayed;
    assert s1.db == Attempted(s.db, r.event.body, o) && s2.db == s1.db.(events := s2.db.events);
    AttemptedIsReplay(s.db, r);
  }

  lemma AttemptedIsReplay(db: Store, r: Replay)
    requires Registered(r.event.body)
    ensures var db' := Attempted(db, r.event.body, r.outcome);
            && db'.jobWrites == db.jobWrites + JobWritesOf([r])
            && db'.runWrites == db.runWrites + RunWritesOf([r])
            && db'.jobs == Fold(Job, db.jobs, JobWritesOf([r]))
            && db'.runs == Fold(Run, db.runs, RunWritesOf([r]))
  {
    PresentOne(JobLandings([r]));
    PresentOne(RunLandings([r]));
    FoldOne(Job, db.jobs, JobWritesOf([r]));
    FoldOne(Run, db.runs, RunWritesOf([r]));
  }

  lemma PresentOne<T>(os: seq<Option<T>>)
    requires |os| == 1
    ensures Present(os) == if os[0].Some? then [os[0].value] else []
  {
    assert os[..0] == [];
  }

  lemma FoldOne<F>(k: Kind, t: Table<F>, ws: seq<Write<F>>)
    requires |ws| <= 1
    ensures Fold(k, t, ws) == if ws == [] then t else Upsert(k, t, ws[0])
  {
  }

  lemma MarkedIsDone(t: Events, e: OrderedEvent, handled: bool, now: int)
    ensures BatchDone(t, Marked(t, e.deliveryId, handled, now), [e])
  {
    forall d ensures Holds([e], d) <==> d == e.deliveryId {
      assert [e][0] == e;
    }
  }

  lemma DoneCompose(t: Events, t1: Events, t2: Events, a: seq<OrderedEvent>, b: seq<OrderedEvent>)
    requires BatchDone(t, t1, a) && BatchDone(t1, t2, b)
    ensures BatchDone(t, t2, a + b)
  {
    HoldsAppend(a, b);
  }

  /** A page respects its limit, and a short one leaves no eligible row out. */
  lemma FetchLimit(t: Events, eligible: set<string>, limit: nat, batch: seq<OrderedEvent>)
    requires IsFetch(t, eligible, limit, batch)
    ensures |batch| <= limit
    ensures |batch| < limit ==> forall d :: d in eligible ==> Holds(batch, d)
  {
    var page :| IsPage(t, eligible, limit, page) && FetchedFrom(t, page, batch);
    if |batch| < limit {
      forall d | d in eligible ensures Holds(batch, d) {
        var i :| 0 <= i < |page| && page[i] == d;
        assert batch[i].deliveryId == d;
      }
    }
  }

  lemma AllReplayed(t0: Events, t: Events, log: seq<OrderedEvent>)
    requires PartlyDrained(t0, t, log) && forall d :: !PendingRow(t, d)
    ensures ReplaysPending(t0, log) && PendingIds(t) == {}
  {
    assert forall d :: d in PendingIds(t) ==> PendingRow(t, d);
  }

  function Times(i: nat, n: nat): nat {
    if i == 0 then 0 else Times(i - 1, n) + n
  }

  lemma {:induction false} TimesIs(i: nat, n: nat)
    ensures Times(i, n) == i * n
    ensures i <= MAX_DRAIN_ITERATIONS ==> Times(i, n) <= MAX_DRAIN_ITERATIONS * n
  {
    if i > 0 {
      TimesIs(i - 1, n);
      assert i * n == (i - 1) * n + n;
    }
    assert i <= MAX_DRAIN_ITERATIONS ==> i * n <= MAX_DRAIN_ITERATIONS * n;
  }

  lemma SpillBound(c: Config, run: seq<State>)
    requires IsRun(c, run)
    ensures Last(run).mem.ipc.ISelect? ==> |Last(run).mem.spill| < c.ingestBatchSize || Last(run).mem.spill == []
  {
    Reachable(c, run);
  }

  lemma OneMoreReplayed(s: State, s1: State, s2: State, log: seq<Replay>, r: Replay, events: seq<OrderedEvent>, i: nat)
    requires Replayed(s, s1, log) && Replayed(s1, s2, [r])
    requires i < |events| && EventsIn(log) == events[..i] && r.event == events[i]
    ensures Replayed(s, s2, log + [r]) && EventsIn(log + [r]) == events[..i + 1]
  {
    ReplayedCompose(s, s1, s2, log, [r]);
    assert events[..i + 1] == events[..i] + [events[i]];
  }

  lemma OneMoreDone(t: Events, t1: Events, t2: Events, events: seq<OrderedEvent>, i: nat)
    requires i < |events| && BatchDone(t, t1, events[..i]) && BatchDone(t1, t2, [events[i]])
    ensures BatchDone(t, t2, events[..i + 1])
  {
    DoneCompose(t, t1, t2, events[..i], [events[i]]);
    assert events[..i + 1] == events[..i] + [events[i]];
  }

  /** Every event of the log had been received by then. */
  predicate ReceivedBy(log: seq<Replay>, time: int) {
    forall r :: r in log ==> r.event.receivedAt <= time
  }

  lemma ReceivedTogether(log: seq<Replay>, time: int)
    requires forall e :: e in EventsIn(log) ==> e.receivedAt <= time
    ensures ReceivedBy(log, time)
  {
    forall r | r in log ensures r.event in EventsIn(log) {
      var i :| 0 <= i < |log| && log[i] == r;
      assert EventsIn(log)[i] == r.event;
    }
  }

  lemma SortedAscends(events: seq<OrderedEvent>)
    requires Sorted(events)
    ensures BatchAscends(events)
  {
    forall i, j | 0 <= i < j < |events|
      ensures Ascending(events[i].timestamp, events[i].orderingKey, events[i].statusPriority,
                        events[j].timestamp, events[j].orderingKey, events[j].statusPriority)
    {
      SortsBeforeIsAscending(KeyOfEvent(events[i]), KeyOfEvent(events[j]));
    }
  }

  // ---- the sort loses nothing -----------------------------------------------------

  /** The event's ordering metadata are those of this write. */
  predicate Carries<F>(k: Kind, e: OrderedEvent, w: Write<F>) {
    && e.timestamp == w.row.createdAt && e.orderingKey == KeyText(k, w.id)
    && e.statusPriority == Rank(k, w.row.status)
  }

  /** Every pending row of a reachable state replays as an event whose metadata match its body,
      provided the accepted events' did. */
  lemma ReplayedEventsWellFormed(c: Config, run: seq<State>, d: string)
    requires IsRun(c, run) && PendingRow(Last(run).db.events, d)
    requires forall e :: e in Last(run).mem.accepted ==> WellFormed(e)
    ensures var row := Last(run).db.events[d];
            row.payload.Some? && WellFormed(EventOf(d, row))
  {
    Reachable(c, run);
    assert RowOrigin(Last(run).mem.accepted, d, Last(run).db.events[d]);
  }

  predicate OneCreatedAt<F>(ws: seq<Write<F>>, w: Write<F>) {
    forall a :: 0 <= a < |ws| && ws[a].id == w.id ==> ws[a].row.createdAt == w.row.createdAt
  }

  /** The upsert turns down no write for its priority: a write for an ID that had no row, and
      whose writes agree on created_at, is accepted exactly when its status is known and no
      earlier write for that ID was terminal. */
  ghost predicate LosslessReplay<F>(k: Kind, t: Table<F>, ws: seq<Write<F>>) {
    forall i :: 0 <= i < |ws| && ws[i].id !in t && OneCreatedAt(ws, ws[i]) ==>
      (Accepts(k, Fold(k, t, ws[..i]), ws[i]) <==>
         Known(k, ws[i].row.status) && NoTerminalBefore(k, ws, ws[i].id, i))
  }

  /** Two writes for one ID with one created_at stand in priority order. */
  predicate InPriorityOrder<F>(k: Kind, v: Write<F>, w: Write<F>) {
    v.id == w.id && v.row.createdAt == w.row.createdAt ==> Rank(k, v.row.status) <= Rank(k, w.row.status)
  }

  lemma {:induction false} PresentInOrder<F>(k: Kind, landings: seq<Option<Write<F>>>)
    requires forall i, j :: 0 <= i < j < |landings| && landings[i].Some? && landings[j].Some? ==>
               InPriorityOrder(k, landings[i].value, landings[j].value)
    ensures forall a, b :: 0 <= a < b < |Present(landings)| ==>
              InPriorityOrder(k, Present(landings)[a], Present(landings)[b])
  {
    if landings != [] {
      var n := |landings| - 1;
      var before := Present(landings[..n]);
      PresentInOrder(k, landings[..n]);
      if landings[n].Some? {
        forall a | 0 <= a < |before| ensures InPriorityOrder(k, before[a], landings[n].value) {
          PresentIsSome(landings[..n], before[a]);
          var i :| 0 <= i < n && landings[i] == Some(before[a]);
        }
      }
    }
  }

  /** Replaying sorted events is lossless for the writes they carry. */
  lemma SortedDrainIsLossless<F>(k: Kind, t: Table<F>, events: seq<OrderedEvent>, landings: seq<Option<Write<F>>>)
    requires TableKnown(k, t) && Sorted(events) && |landings| == |events|
    requires forall i :: 0 <= i < |events| && landings[i].Some? ==> Carries(k, events[i], landings[i].value)
    ensures LosslessReplay(k, t, Present(landings))
  {
    var ws := Present(landings);
    forall i, j | 0 <= i < j < |landings| && landings[i].Some? && landings[j].Some?
      ensures InPriorityOrder(k, landings[i].value, landings[j].value)
    {
      assert SortsBefore(KeyOfEvent(events[i]), KeyOfEvent(events[j]));
    }
    PresentInOrder(k, landings);
    forall i: nat | i < |ws| && ws[i].id !in t && OneCreatedAt(ws, ws[i])
      ensures Accepts(k, Fold(k, t, ws[..i]), ws[i]) <==>
              Known(k, ws[i].row.status) && NoTerminalBefore(k, ws, ws[i].id, i)
    {
      assert forall a, b :: 0 <= a < b <= i ==> InPriorityOrder(k, ws[a], ws[b]);
      SortedReplayIsLossless(k, t, ws, i);
    }
  }

  /** What the final flush of a run replays, if its marks succeed. */
  lemma FlushIsLossless(c: Config, run: seq<State>, t: Events, log: seq<Replay>)
    requires IsRun(c, run) && forall e :: e in Last(run).mem.accepted ==> WellFormed(e)
    requires PartlyDrained(Last(run).db.events, t, EventsIn(log))
    ensures LosslessReplay(Job, Last(run).db.jobs, JobWritesOf(log))
    ensures LosslessReplay(Run, Last(run).db.runs, RunWritesOf(log))
  {
    var s := Last(run);
    Reachable(c, run);
    forall i | 0 <= i < |log| ensures WellFormed(log[i].event) {
      var e := EventsIn(log)[i];
      assert PendingRow(s.db.events, e.deliveryId);
      ReplayedEventsWellFormed(c, run, e.deliveryId);
    }
    SortedDrainIsLossless(Job, s.db.jobs, EventsIn(log), JobLandings(log));
    SortedDrainIsLossless(Run, s.db.runs, EventsIn(log), RunLandings(log));
  }

  class EventOrderingService {
    const c: Config
    const proc: Processor
    /** How long a row stays pending before a ready flush takes it up. */
    const maxAge: int
    var ch: seq<OrderedEvent>
    var spill: seq<OrderedEvent>
    var cancelled: bool
    /** A run of the machine, and the state it has reached. */
    ghost var run: seq<State>
    ghost var m: State

    /** The fields and tables are those of the state the machine has reached. */
    ghost predicate Valid()
      reads this, proc.db
    {
      && proc.Wired() && IsRun(c, run) && Last(run) == m
      && m.mem.ch == ch && m.mem.spill == spill && m.cancelled == cancelled
      && m.db.events == proc.db.events && m.db.jobs == proc.db.jobs && m.db.runs == proc.db.runs
    }

    /** Starting over a database in good order, whose pending rows become the backlog. */
    constructor (c: Config, proc: Processor, maxAge: int, ghost backlog: seq<OrderedEvent>)
      requires proc.Wired() && RowsOk(proc.db.events)
      requires TableKnown(Job, proc.db.jobs) && TableKnown(Run, proc.db.runs)
      requires forall d :: d in PendingIds(proc.db.events) ==> EventOf(d, proc.db.events[d]) in backlog
      requires forall e :: e in backlog ==>
                 e.deliveryId in PendingIds(proc.db.events) && e == EventOf(e.deliveryId, proc.db.events[e.deliveryId])
      ensures Valid() && m.mem.accepted == backlog && ch == [] && spill == [] && !cancelled
    {
      this.c, this.proc, this.maxAge := c, proc, maxAge;
      ch, spill, cancelled := [], [], false;
      var db := proc.db;
      m := State(Memory([], [], ISelect, backlog, multiset(backlog), multiset{}, multiset{}, multiset{}, 0),
                 Store(db.events, db.jobs, db.runs, db.jobs, db.runs, [], [], {}, {}, {}),
                 FSelect, false, false, []);
      run := [m];
    }

    ghost method Took(step: Step)
      requires IsRun(c, run) && Last(run) == m && Enabled(c, m, step)
      modifies this`run, this`m
      ensures IsRun(c, run) && Last(run) == m && m == Do(c, old(m), step)
    {
      var m' := Do(c, m, step);
      assert Next(c, Last(run), m');
      run, m := run + [m'], m';
    }

    /** Stop's first half: signal both workers. */
    method CancelWorkers()
      requires Valid()
      modifies this
      ensures Valid() && cancelled && m == Do(c, old(m), Cancel)
    {
      cancelled := true;
      Took(Cancel);
    }

    /** The select a blocked sender is woken in, in whatever state that happens: any ready
        branch may be taken. `bounded`: the wait has a timer. */
    method AwaitRoom(e: OrderedEvent, bounded: bool) returns (error: Option<AddError>)
      requires Valid() && Fresh(e)
      requires |ch| < c.capacity || cancelled || bounded
      modifies this
      ensures Valid() && spill == old(spill) && cancelled == old(cancelled)
      ensures error.None? ==> |old(ch)| < c.capacity && ch == old(ch) + [e] && m == Do(c, old(m), Enqueue(e))
      ensures error.Some? ==> ch == old(ch) && m == old(m)
      ensures error == Some(Canceled) ==> cancelled
      ensures error == Some(QueueFull) ==> bounded
    {
      var sends, timedOut := *, *;
      if |ch| < c.capacity && (sends || !(cancelled || bounded)) {
        ch := ch + [e];
        Took(Enqueue(e));
        return None;
      }
      if cancelled && (!bounded || !timedOut) {
        return Some(Canceled);
      }
      return Some(QueueFull);
    }

    /** A send that finds room succeeds at once, cancelled or not; otherwise, if no room appears
        while it waits, the caller is told that the queue stayed full, or, during shutdown only,
        that the service was cancelled. (When room does appear, AwaitRoom says what happens.) */
    method AddEvent(e: OrderedEvent) returns (error: Option<AddError>)
      requires Valid() && Fresh(e)
      modifies this
      ensures Valid()
      ensures error.None? <==> |old(ch)| < c.capacity
      ensures error.None? ==> ch == old(ch) + [e] && m == Do(c, old(m), Enqueue(e))
      ensures error.Some? ==> ch == old(ch) && m == old(m)
      ensures error == Some(Canceled) ==> cancelled
      ensures spill == old(spill) && cancelled == old(cancelled)
    {
      if |ch| < c.capacity {
        ch := ch + [e];
        Took(Enqueue(e));
        return None;
      }
      error := AwaitRoom(e, true);
    }

    // ---- ingest worker --------------------------------------------------------------

    /** The buffer is emptied whether or not the store succeeded; through a cancelled context
        it cannot succeed. */
    method FlushSpill(done: bool) returns (ghost store: Result)
      modifies this`spill, proc.db`events
      ensures spill == []
      ensures proc.db.events == if store.Lost? then old(proc.db.events) else StoreAll(old(proc.db.events), old(spill))
      ensures done ==> store.Lost?
    {
      store := if done then Lost else Ok;
      if |spill| == 0 {
        return;
      }
      var failed := proc.db.StoreWebhookEvents(done, spill);
      store := if !failed then Ok else if proc.db.events == old(proc.db.events) then Lost else Durable;
      spill := [];
    }

    /** Handles one received event; only a non-permanent failure spills it. */
    method Process(e: OrderedEvent)
      requires Valid() && m.mem.ipc.IBusy? && m.mem.ipc.event == e
      modifies this, proc.db, proc.jobs, proc.runs.sse`pending, proc.runs.sse`coal
      ensures Valid() && ch == old(ch) && cancelled == old(cancelled)
      ensures m.mem.ipc == ICheck(old(m).mem.ipc.draining) && m.fpc == old(m).fpc
      ensures m.mem.accepted == old(m).mem.accepted
      ensures spill == old(spill) || (spill == old(spill) + [e] && Registered(e.body))
    {
      assert Fresh(e) by {
        Reachable(c, run);
      }
      var now := *;
      ghost var outcome, mark;
      var error;
      error, outcome, mark := proc.ProcessOrderedEvent(e, now);
      HotEffect(c, m, outcome);
      Took(HotApply(outcome));
      if error.Some? && !error.value.Permanent? {
        assert !error.value.MarkFailure?;
        spill := spill + [e];
      }
    }

    /** One turn of either receive branch: handle the event, then spill if the buffer filled
        up, through the service context unless draining. */
    method ReceiveOne(draining: bool)
      requires Valid() && ch != [] && m.mem.ipc == if draining then IDrain else ISelect
      modifies this, proc.db, proc.jobs, proc.runs.sse`pending, proc.runs.sse`coal
      ensures Valid() && ch == old(ch)[1..] && cancelled == old(cancelled)
      ensures m.mem.ipc == old(m).mem.ipc && m.fpc == old(m).fpc
      ensures m.mem.accepted == old(m).mem.accepted
    {
      var e := ch[0];
      ch := ch[1..];
      Took(Recv);
      Process(e);
      SpillIfDue(draining);
    }

    method SpillIfDue(draining: bool)
      requires Valid() && m.mem.ipc == ICheck(draining)
      modifies this, proc.db`events
      ensures Valid() && ch == old(ch) && cancelled == old(cancelled)
      ensures spill == if |old(spill)| >= c.ingestBatchSize then [] else old(spill)
      ensures m.mem.ipc == (if draining then IDrain else ISelect) && m.fpc == old(m).fpc
      ensures m.mem.accepted == old(m).mem.accepted
    {
      ghost var store := if cancelled && !draining then Lost else Ok;
      if |spill| >= c.ingestBatchSize {
        store := FlushSpill(cancelled && !draining);
      }
      Took(SpillCheck(store));
    }

    /** The ticker branch: spill whatever there is. */
    method TickSpill()
      requires Valid() && m.mem.ipc.ISelect?
      modifies this, proc.db`events
      ensures Valid() && ch == old(ch) && spill == [] && cancelled == old(cancelled)
      ensures m.mem.ipc.ISelect? && m.fpc == old(m).fpc
      ensures m.mem.accepted == old(m).mem.accepted
    {
      ghost var store := FlushSpill(cancelled);
      Took(Tick(store));
    }

    /** The shutdown drain: receives until a poll finds the channel empty, spills what is left
        and signals ingestDoneCh. */
    method DrainIngest()
      requires Valid() && m.mem.ipc.IDrain?
      modifies this, proc.db, proc.jobs, proc.runs.sse`pending, proc.runs.sse`coal
      ensures Valid() && ch == [] && spill == [] && cancelled == old(cancelled)
      ensures m.mem.ipc.IDone? && m.fpc == old(m).fpc
      ensures m.mem.polledAt == |m.mem.accepted| && m.mem.accepted == old(m).mem.accepted
    {
      while ch != []
        invariant Valid() && m.mem.ipc.IDrain? && m.fpc == old(m).fpc
        invariant cancelled == old(cancelled) && m.mem.accepted == old(m).mem.accepted
        decreases |ch|
      {
        ReceiveOne(true);
      }
      EndDrain();
    }

    /** The poll that finds the channel empty, and the final spill. */
    method EndDrain()
      requires Valid() && m.mem.ipc.IDrain? && ch == []
      modifies this, proc.db`events
      ensures Valid() && ch == [] && spill == [] && cancelled == old(cancelled)
      ensures m.mem.ipc.IDone? && m.fpc == old(m).fpc
      ensures m.mem.polledAt == |m.mem.accepted| && m.mem.accepted == old(m).mem.accepted
    {
      Took(PollEmpty);
      ghost var store := FlushSpill(false);
      Took(FinalSpill(store));
    }

    /** One turn of the ingest worker's main select, whichever ready branch it takes. Between
        turns the spill buffer is below the batch size; when the worker returns it has drained. */
    method IngestTurn() returns (finished: bool)
      requires Valid() && m.mem.ipc.ISelect?
      modifies this, proc.db, proc.jobs, proc.runs.sse`pending, proc.runs.sse`coal
      ensures Valid() && m.fpc == old(m).fpc && m.mem.accepted == old(m).mem.accepted
      ensures finished ==> cancelled && m.mem.ipc.IDone? && ch == [] && spill == []
      ensures !finished ==> m.mem.ipc.ISelect? && (|spill| < c.ingestBatchSize || spill == [])
    {
      var sawCancel, received := *, *;
      finished := false;
      if cancelled && sawCancel {
        Took(SeeCancel);
        DrainIngest();
        finished := true;
      } else if ch != [] && received {
        ReceiveOne(false);
      } else {
        TickSpill();
      }
      SpillBound(c, run);
    }

    // ---- flush worker ---------------------------------------------------------------

    /** Whether a step of the flush worker only moves it on, and is enabled. */
    ghost predicate CanMove(step: Step)
      reads this
    {
      match step
      case FlushTick => m.fpc.FSelect?
      case FetchReady(_, _) => Enabled(c, m, step)
      case ReadyStop => m.fpc.FReady?
      case RoundEnd(_) => m.fpc.FBatch? && m.fpc.rest == []
      case FlushSeeCancel => m.fpc.FSelect? && m.cancelled
      case AwaitIngest => m.fpc.FWait? && m.mem.ipc.IDone?
      case FetchAll(_) => Enabled(c, m, step)
      case AllAbort => m.fpc.FAll?
      case _ => false
    }

    ghost method Moved(step: Step)
      requires Valid() && CanMove(step)
      modifies this`run, this`m
      ensures Valid() && m.mem == old(m).mem && NothingHandled(old(m), m)
      ensures m.fpc == FlushAfter(c, old(m).fpc, step)
      ensures m.finalFault == (old(m).finalFault || step.AllAbort?)
    {
      Took(step);
    }

    /** Replays the next event of the page and marks its row. */
    method ProcessNext(e: OrderedEvent) returns (ghost replay: Replay, ghost markFailed: bool)
      requires Valid() && m.fpc.FBatch? && m.fpc.rest != [] && m.fpc.rest[0] == e
      modifies this`run, this`m, proc.db, proc.jobs, proc.runs.sse`pending, proc.runs.sse`coal
      ensures Valid() && m.mem == old(m).mem
      ensures m.fpc == FBatch(old(m).fpc.round, old(m).fpc.rest[1..])
      ensures m.finalFault == (old(m).finalFault || (old(m).fpc.round.All? && markFailed))
      ensures replay.event == e && Replayed(old(m), m, [replay])
      ensures !markFailed ==> BatchDone(old(proc.db.events), proc.db.events, [e])
    {
      assert ColdEventOk(m.mem.accepted, m.db.events, e) by {
        Reachable(c, run);
        assert Remaining(m.fpc)[0] == e;
      }
      var now := *;
      ghost var outcome, mark;
      var error;
      error, outcome, mark := proc.ProcessOrderedEvent(e, now);
      replay, markFailed := Replay(e, outcome), !mark.Ok?;
      ColdEffect(c, m, outcome, now, mark);
      ColdReplay(c, m, outcome, now, mark);
      Took(ColdApply(outcome));
      Took(ColdMark(now, mark));
      if !markFailed {
        MarkedIsDone(old(proc.db.events), e, outcome.Handled?, now);
      }
    }

    /** Replays a whole page, in order: the typed tables take exactly the writes of its events
        that landed. If every mark succeeds, exactly its rows leave the pending set; a failing
        handler does not stop the loop. */
    method ProcessEvents(events: seq<OrderedEvent>) returns (ghost log: seq<Replay>, ghost markFailed: bool)
      requires Valid() && m.fpc.FBatch? && m.fpc.rest == events
      modifies this`run, this`m, proc.db, proc.jobs, proc.runs.sse`pending, proc.runs.sse`coal
      ensures Valid() && m.mem == old(m).mem
      ensures m.fpc == FBatch(old(m).fpc.round, [])
      ensures m.finalFault == (old(m).finalFault || (old(m).fpc.round.All? && markFailed))
      ensures EventsIn(log) == events && Replayed(old(m), m, log)
      ensures !markFailed ==> BatchDone(old(proc.db.events), proc.db.events, events)
    {
      log, markFailed := [], false;
      ReplayedNothing(m, m);
      for i := 0 to |events|
        invariant Valid() && m.mem == old(m).mem
        invariant m.fpc == FBatch(old(m).fpc.round, events[i..])
        invariant m.finalFault == (old(m).finalFault || (old(m).fpc.round.All? && markFailed))
        invariant EventsIn(log) == events[..i] && Replayed(old(m), m, log)
        invariant !markFailed ==> BatchDone(old(proc.db.events), proc.db.events, events[..i])
      {
        ghost var before, m1 := proc.db.events, m;
        ghost var replay, failed := ProcessNext(events[i]);
        markFailed := markFailed || failed;
        OneMoreReplayed(old(m), m1, m, log, replay, events, i);
        log := log + [replay];
        if !markFailed {
          OneMoreDone(old(proc.db.events), before, proc.db.events, events, i);
        }
      }
      assert events[..|events|] == events;
    }

    /** Fetches the page of iteration i of a ready flush, if shutdown has not begun, the query
        succeeds and there is something to replay. */
    method FetchAged(ghost i: nat, now: int) returns (events: seq<OrderedEvent>)
      requires Valid() && m.fpc == FReady(i) && i < MAX_DRAIN_ITERATIONS
      modifies this`run, this`m
      ensures Valid() && m.mem == old(m).mem && m.finalFault == old(m).finalFault
      ensures NothingHandled(old(m), m)
      ensures |events| <= c.batchSize && (cancelled ==> events == [])
      ensures forall e :: e in events ==> e.receivedAt + maxAge <= now
      ensures m.fpc == if events == [] then FSelect else FBatch(Ready(i, |events|), events)
    {
      var error;
      if !cancelled {
        events, error := proc.db.GetPendingEventsByAge(cancelled, now, maxAge, c.batchSize);
      }
      if cancelled || error.Some? {
        Moved(ReadyStop);
        return [];
      }
      Moved(FetchReady(now - maxAge, events));
    }

    /** Iteration i of a ready flush at the time `now`; `stop` when the flush returns from it. */
    method ReadyRound(ghost i: nat, now: int) returns (handled: nat, stop: bool, ghost log: seq<Replay>)
      requires Valid() && m.fpc == FReady(i) && i < MAX_DRAIN_ITERATIONS
      modifies this`run, this`m, proc.db, proc.jobs, proc.runs.sse`pending, proc.runs.sse`coal
      ensures Valid() && m.mem == old(m).mem && |log| == handled <= c.batchSize
      ensures m.fpc == if stop then FSelect else FReady(i + 1)
      ensures Replayed(old(m), m, log) && ReceivedBy(log, now - maxAge)
      ensures cancelled ==> stop && handled == 0 && proc.db.events == old(proc.db.events)
    {
      var events := FetchAged(i, now);
      ghost var m1 := m;
      if |events| == 0 {
        ReplayedNothing(old(m), m);
        return 0, true, [];
      }
      ghost var markFailed;
      log, markFailed := ProcessEvents(events);
      ghost var m2 := m;
      var late := *;
      Moved(RoundEnd(late));
      ReplayedBetween(old(m), m1, m2, m, log);
      assert |EventsIn(log)| == |log|;
      ReceivedTogether(log, now - maxAge);
      return |events|, |events| < c.batchSize || late, log;
    }

    /** The loop of a ready flush that starts at the time `start`. */
    method ReadyRounds(start: int) returns (processed: nat, now: int, ghost rounds: nat, ghost log: seq<Replay>)
      requires Valid() && m.fpc == FReady(0)
      modifies this`run, this`m, proc.db, proc.jobs, proc.runs.sse`pending, proc.runs.sse`coal
      ensures Valid() && m.mem == old(m).mem && (m.fpc.FSelect? || m.fpc.FReady?)
      ensures rounds <= MAX_DRAIN_ITERATIONS && processed <= Times(rounds, c.batchSize)
      ensures |log| == processed && Replayed(old(m), m, log)
      ensures now >= start && ReceivedBy(log, now - maxAge)
      ensures cancelled ==> processed == 0 && proc.db.events == old(proc.db.events)
    {
      processed, now, rounds, log := 0, start, 0, [];
      ReplayedNothing(m, m);
      for i := 0 to MAX_DRAIN_ITERATIONS
        invariant Valid() && m.fpc == FReady(i) && m.mem == old(m).mem && rounds == i
        invariant processed <= Times(i, c.batchSize) && (cancelled ==> i == 0)
        invariant |log| == processed && Replayed(old(m), m, log)
        invariant now >= start && ReceivedBy(log, now - maxAge)
        invariant i == 0 ==> processed == 0 && proc.db.events == old(proc.db.events)
      {
        ghost var m1 := m;
        ghost var more;
        var handled, stop, elapsed: nat := *, *, *;
        now := now + elapsed;
        handled, stop, more := ReadyRound(i, now);
        ReplayedCompose(old(m), m1, m, log, more);
        processed, rounds, log := processed + handled, i + 1, log + more;
        if stop {
          return;
        }
      }
    }

    /** A ready flush: pages of aged rows until one comes back short, the slice is used up, the
        fetch fails or shutdown begins. It handles a bounded number of events, and none before it
        has been pending for maxAge. */
    method FlushReadyEvents(start: int) returns (processed: nat, now: int, ghost log: seq<Replay>)
      requires Valid() && m.fpc.FSelect?
      modifies this`run, this`m, proc.db, proc.jobs, proc.runs.sse`pending, proc.runs.sse`coal
      ensures Valid() && m.fpc.FSelect? && m.mem == old(m).mem
      ensures |log| == processed <= 20 * c.batchSize && Replayed(old(m), m, log)
      ensures now >= start && forall r :: r in log ==> r.event.receivedAt + maxAge <= now
      ensures cancelled ==> processed == 0 && proc.db.events == old(proc.db.events)
    {
      Moved(FlushTick);
      ghost var m1 := m;
      ghost var rounds;
      processed, now, rounds, log := ReadyRounds(start);
      ghost var m2 := m;
      if m.fpc.FReady? {
        Moved(ReadyStop);
      }
      ReplayedBetween(old(m), m1, m2, m, log);
      TimesIs(rounds, c.batchSize);
    }

    /** Fetches a page of pending rows for the final flush. */
    method FetchPending() returns (events: seq<OrderedEvent>, failed: bool)
      requires Valid() && m.fpc.FAll?
      modifies this`run, this`m
      ensures Valid() && m.mem == old(m).mem && NothingHandled(old(m), m)
      ensures m.finalFault == (old(m).finalFault || failed)
      ensures m.fpc == if failed || events == [] then FDone else FBatch(All(|events|), events)
      ensures !failed ==> IsFetch(proc.db.events, PendingIds(proc.db.events), FLUSH_PAGE, events)
      ensures !failed ==> |events| <= FLUSH_PAGE
      ensures !failed && |events| < FLUSH_PAGE ==> forall d :: PendingRow(proc.db.events, d) ==> Holds(events, d)
    {
      var error;
      events, error := proc.db.GetPendingEventsGrouped(FLUSH_PAGE);
      failed := error.Some?;
      if failed {
        Moved(AllAbort);
        return;
      }
      ghost var pending := PendingIds(proc.db.events);
      FetchLimit(proc.db.events, pending, FLUSH_PAGE, events);
      assert forall d :: PendingRow(proc.db.events, d) ==> d in pending;
      Moved(FetchAll(events));
    }

    /** One turn of flushAll's loop after its deadline test. */
    method FinalRound() returns (end: Option<FlushEnd>, ghost log: seq<Replay>, ghost markFailed: bool)
      requires Valid() && m.fpc.FAll?
      modifies this`run, this`m, proc.db, proc.jobs, proc.runs.sse`pending, proc.runs.sse`coal
      ensures Valid() && m.mem == old(m).mem
      ensures m.fpc == if end.Some? then FDone else FAll
      ensures m.finalFault == (old(m).finalFault || markFailed || end == Some(FetchFailed))
      ensures end.None? || end == Some(Drained) || end == Some(FetchFailed)
      ensures Replayed(old(m), m, log)
      ensures end == Some(FetchFailed) ==> log == [] && !markFailed && proc.db.events == old(proc.db.events)
      ensures end != Some(FetchFailed) ==>
                IsFetch(old(proc.db.events), PendingIds(old(proc.db.events)), FLUSH_PAGE, EventsIn(log))
      ensures end != Some(FetchFailed) && !markFailed ==>
                BatchDone(old(proc.db.events), proc.db.events, EventsIn(log))
      ensures end.None? ==> |log| == FLUSH_PAGE
      ensures end == Some(Drained) && !markFailed ==> forall d :: !PendingRow(proc.db.events, d)
    {
      log, markFailed := [], false;
      var events, failed := FetchPending();
      ghost var m1 := m;
      ReplayedNothing(old(m), m);
      if failed {
        return Some(FetchFailed), log, false;
      }
      assert EventsIn(log) == [];
      if |events| == 0 {
        return Some(Drained), log, false;
      }
      log, markFailed := ProcessEvents(events);
      ghost var m2 := m;
      Moved(RoundEnd(false));
      ReplayedBetween(old(m), m1, m2, m, log);
      assert |EventsIn(log)| == |log|;
      end := if |events| < FLUSH_PAGE then Some(Drained) else None;
    }

    /** The final flush, with a deadline of `budget` rounds. The typed tables take exactly the
        writes that landed of the events it replayed, in replay order. If the marks succeed,
        what it replayed ascends by (timestamp, key, priority), oldest first, and the upsert turns
        down no write of it for its priority. If it also ran to the end, it has replayed the whole
        pending set, each row once, and leaves nothing pending; each full round shrinks the
        pending set by a page, so only a deadline of no more rounds than that takes can cut it
        short. */
    method FlushAll(budget: nat) returns (end: FlushEnd, ghost log: seq<Replay>, ghost markFailed: bool)
      requires Valid() && m.fpc.FAll?
      modifies this`run, this`m, proc.db, proc.jobs, proc.runs.sse`pending, proc.runs.sse`coal
      ensures Valid() && m.fpc.FDone? && m.mem == old(m).mem
      ensures m.finalFault == (old(m).finalFault || markFailed || !end.Drained?)
      ensures Replayed(old(m), m, log)
      ensures !markFailed ==> Sorted(EventsIn(log)) && BatchAscends(EventsIn(log))
      ensures !markFailed ==> forall i, j :: 0 <= i < j < |log| ==> log[i].event.timestamp <= log[j].event.timestamp
      ensures !markFailed && (forall e :: e in m.mem.accepted ==> WellFormed(e)) ==>
                && LosslessReplay(Job, old(proc.db.jobs), JobWritesOf(log))
                && LosslessReplay(Run, old(proc.db.runs), RunWritesOf(log))
      ensures end.Drained? && !markFailed ==>
                ReplaysPending(old(proc.db.events), EventsIn(log)) && PendingIds(proc.db.events) == {}
      ensures end.DeadlineHit? && !markFailed ==> budget * 1000 <= |PendingIds(old(proc.db.events))|
    {
      end, log, markFailed := FlushRounds(budget);
      if !markFailed {
        SortedAscends(EventsIn(log));
        assert forall i :: 0 <= i < |log| ==> EventsIn(log)[i] == log[i].event;
      }
      if !markFailed && forall e :: e in m.mem.accepted ==> WellFormed(e) {
        FlushIsLossless(c, old(run), proc.db.events, log);
      }
    }

    /** The loop of the final flush. */
    method FlushRounds(budget: nat) returns (end: FlushEnd, ghost log: seq<Replay>, ghost markFailed: bool)
      requires Valid() && m.fpc.FAll?
      modifies this`run, this`m, proc.db, proc.jobs, proc.runs.sse`pending, proc.runs.sse`coal
      ensures Valid() && m.fpc.FDone? && m.mem == old(m).mem
      ensures m.finalFault == (old(m).finalFault || markFailed || !end.Drained?)
      ensures Replayed(old(m), m, log)
      ensures !markFailed ==> PartlyDrained(old(proc.db.events), proc.db.events, EventsIn(log))
      ensures end.Drained? && !markFailed ==>
                ReplaysPending(old(proc.db.events), EventsIn(log)) && PendingIds(proc.db.events) == {}
      ensures end.DeadlineHit? && !markFailed ==> budget * FLUSH_PAGE <= |PendingIds(old(proc.db.events))|
    {
      var left: nat := budget;
      log, markFailed := [], false;
      ReplayedNothing(m, m);
      ghost var t0 := proc.db.events;
      while true
        invariant Valid() && m.fpc.FAll? && m.mem == old(m).mem && left <= budget
        invariant m.finalFault == (old(m).finalFault || markFailed)
        invariant Replayed(old(m), m, log)
        invariant !markFailed ==> PartlyDrained(t0, proc.db.events, EventsIn(log))
        invariant !markFailed ==> |log| == (budget - left) * FLUSH_PAGE
        decreases left
      {
        ghost var before, m1 := proc.db.events, m;
        if left == 0 {
          Moved(AllAbort);
          ReplayedBetween(old(m), old(m), m1, m, log);
          if !markFailed {
            DrainedCount(t0, proc.db.events, EventsIn(log));
          }
          return DeadlineHit, log, markFailed;
        }
        ghost var more, failed;
        var reason;
        reason, more, failed := FinalRound();
        markFailed := markFailed || failed;
        ReplayedCompose(old(m), m1, m, log, more);
        if reason == Some(FetchFailed) {
          assert log + [] == log;
          return FetchFailed, log, markFailed;
        }
        if !markFailed {
          BatchIsDrain(before, FLUSH_PAGE, proc.db.events, EventsIn(more));
          DrainsCompose(t0, before, proc.db.events, EventsIn(log), EventsIn(more));
          LogAppend(log, more);
        }
        log := log + more;
        left := left - 1;
        if reason == Some(Drained) {
          if !markFailed {
            AllReplayed(t0, proc.db.events, EventsIn(log));
          }
          return Drained, log, markFailed;
        }
      }
    }

    // ---- cleanup service ------------------------------------------------------------

    /** The stale sweep, as a step of the machine unless it failed without effect. */
    method SweepStaleJobs(cutoff: int, now: int) returns (failed: bool)
      requires Valid()
      modifies this`run, this`m, proc.db`jobs
      ensures Valid() && m.mem == old(m).mem && m.fpc == old(m).fpc && m.replayed == old(m).replayed
      ensures proc.db.jobs.Keys == old(proc.db.jobs).Keys
      ensures proc.db.jobs == old(proc.db.jobs) || m == Do(c, old(m), StaleSweep(cutoff, now))
      ensures !failed ==> m == Do(c, old(m), StaleSweep(cutoff, now))
      ensures !failed ==> forall id :: id in proc.db.jobs && proc.db.jobs[id].createdAt < cutoff ==>
                proc.db.jobs[id].status != Queued && proc.db.jobs[id].status != InProgress
    {
      var affected;
      SweepIsIdempotent(proc.db.jobs, cutoff, (f: JobFields) => f.(completedAt := Some(now)));
      affected, failed := proc.db.CleanupStaleJobs(cutoff, now);
      if !failed || proc.db.jobs != old(proc.db.jobs) {
        Took(StaleSweep(cutoff, now));
      }
    }

    /** The retention delete, likewise. */
    method DeleteOldData(cutoff: int) returns (failed: bool)
      requires Valid()
      modifies this`run, this`m, proc.db
      ensures Valid() && m.mem == old(m).mem && m.fpc == old(m).fpc && m.replayed == old(m).replayed
      ensures m == old(m) || m == Do(c, old(m), Retain(cutoff))
      ensures forall id :: id in proc.db.jobs ==> id in old(proc.db.jobs) && proc.db.jobs[id] == old(proc.db.jobs)[id]
      ensures !failed ==> m == Do(c, old(m), Retain(cutoff))
      ensures !failed ==>
                && (forall id :: id in proc.db.jobs ==> proc.db.jobs[id].createdAt >= cutoff)
                && (forall id :: id in proc.db.runs ==> proc.db.runs[id].createdAt >= cutoff)
    {
      var deletedRuns, deletedJobs, deletedEvents;
      ghost var db0 := m.db;
      deletedRuns, deletedJobs, deletedEvents, failed := proc.db.CleanupOldData(cutoff);
      if !failed || proc.db.jobs != db0.jobs || proc.db.runs != db0.runs || proc.db.events != db0.events {
        Took(Retain(cutoff));
      }
    }

    /** One cleanup: the delete runs whether or not the sweep failed, and only its failure is
        reported. */
    method PerformCleanup(staleCutoff: int, retention: int, now: int) returns (failed: bool, ghost sweepFailed: bool)
      requires Valid()
      modifies this`run, this`m, proc.db
      ensures Valid() && m.mem == old(m).mem && m.fpc == old(m).fpc && m.replayed == old(m).replayed
      ensures !sweepFailed ==> forall id :: id in proc.db.jobs && proc.db.jobs[id].createdAt < staleCutoff ==>
                proc.db.jobs[id].status != Queued && proc.db.jobs[id].status != InProgress
      ensures !failed ==>
                && (forall id :: id in proc.db.jobs ==> proc.db.jobs[id].createdAt >= retention)
                && (forall id :: id in proc.db.runs ==> proc.db.runs[id].createdAt >= retention)
    {
      sweepFailed := SweepStaleJobs(staleCutoff, now);
      failed := DeleteOldData(retention);
    }

    /** Stop with no other caller in the way: cancel, drain, and flush what the drain left. */
    method Stop(budget: nat) returns (end: FlushEnd)
      requires Valid() && m.mem.ipc.ISelect? && m.fpc.FSelect?
      modifies this, proc.db, proc.jobs, proc.runs.sse`pending, proc.runs.sse`coal
      ensures Valid() && Stopped(m) && cancelled && ch == [] && spill == []
      ensures m.mem.accepted == old(m).mem.accepted
      ensures !m.finalFault ==> end.Drained? && PendingIds(proc.db.events) == {}
    {
      CancelWorkers();
      Took(SeeCancel);
      DrainIngest();
      Moved(FlushSeeCancel);
      Moved(AwaitIngest);
      ghost var log, markFailed;
      end, log, markFailed := FlushAll(budget);
      ShutdownDrains(c, run);
    }
  }
}
