/** The workflow_job handler: read the previous state, upsert, and update the metrics, as the
    sequential method and as interleaved calls (handlers/workflow_job_handler.go). */
module JobHandler {
  import opened Base
  import opened Status
  import opened Lifecycle
  import opened Records
  import opened Database

  datatype QueueTime = QueueTime(runner: string, seconds: int)

  /** The registry's job metrics: a counter per conclusion, the queue durations recorded, and
      for the record, how often each job has had one recorded. */
  datatype Metrics = Metrics(conclusions: multiset<string>, queueTimes: seq<QueueTime>, observedJobs: multiset<int>)

  function LabelOf(w: JobWrite): string {
    if |w.row.fields.labels| > 0 then w.row.fields.labels[0] else "(unlabeled)"
  }

  predicate ObservesQueueTime(prev: JobStatus, w: JobWrite) {
    prev != w.row.status && prev == Queued && w.row.fields.startedAt.Some?
  }

  predicate CountsConclusion(prev: JobStatus, w: JobWrite) {
    prev != w.row.status && w.row.status == Completed && w.row.fields.conclusion != ""
  }

  function AfterTransition(m: Metrics, prev: JobStatus, w: JobWrite): Metrics {
    var m1 := if ObservesQueueTime(prev, w)
              then m.(queueTimes := m.queueTimes
                        + [QueueTime(LabelOf(w), w.row.fields.startedAt.value - w.row.createdAt)],
                      observedJobs := m.observedJobs + multiset{w.id})
              else m;
    if CountsConclusion(prev, w)
    then m1.(conclusions := m1.conclusions + multiset{w.row.fields.conclusion})
    else m1
  }

  /** How the metrics change on a transition from `prev` by the write w, column by column: leaving
      `queued` with a start time records one queue duration, from creation to start, under the
      first label; newly completing with a conclusion counts it once; nothing else counts. */
  ghost predicate Transitioned(m: Metrics, prev: JobStatus, w: JobWrite, m': Metrics) {
    var f := w.row.fields;
    && (if prev == Queued && w.row.status != Queued && f.startedAt.Some?
        then && |m'.queueTimes| == |m.queueTimes| + 1 && m'.queueTimes[..|m.queueTimes|] == m.queueTimes
             && m'.queueTimes[|m.queueTimes|].seconds == f.startedAt.value - w.row.createdAt
             && m'.queueTimes[|m.queueTimes|].runner == (if f.labels == [] then "(unlabeled)" else f.labels[0])
             && m'.observedJobs == m.observedJobs + multiset{w.id}
        else m'.queueTimes == m.queueTimes && m'.observedJobs == m.observedJobs)
    && m'.conclusions == m.conclusions +
         if w.row.status == Completed && prev != Completed && f.conclusion != "" then multiset{f.conclusion}
         else multiset{}
  }

  lemma AfterTransitionIs(m: Metrics, prev: JobStatus, w: JobWrite)
    ensures Transitioned(m, prev, w, AfterTransition(m, prev, w))
    ensures w.row.fields.startedAt.Some? && w.row.fields.startedAt.value >= w.row.createdAt
            && (forall q :: q in m.queueTimes ==> q.seconds >= 0) ==>
              forall q :: q in AfterTransition(m, prev, w).queueTimes ==> q.seconds >= 0
  {
  }

  class WorkflowJobHandler {
    const db: DBWrapper
    var metrics: Metrics

    constructor (db: DBWrapper)
      ensures this.db == db && metrics == Metrics(multiset{}, [], multiset{})
    {
      this.db := db;
      metrics := Metrics(multiset{}, [], multiset{});
    }

    /** A rejected or unknown status is no error and leaves the metrics alone; an error leaves
        them alone too, even when the write took effect. */
    method HandleEvent(w: JobWrite) returns (failed: bool)
      modifies this, db`jobs
      ensures !failed ==> db.jobs == Upsert(Job, old(db.jobs), w)
      ensures failed ==> Known(Job, w.row.status)
      ensures db.jobs == old(db.jobs) || db.jobs == Upsert(Job, old(db.jobs), w)
      ensures failed || !Accepts(Job, old(db.jobs), w) ==> metrics == old(metrics)
      ensures !failed && Accepts(Job, old(db.jobs), w) ==>
                || metrics == AfterTransition(old(metrics), Other(""), w)
                || metrics == AfterTransition(old(metrics),
                     if w.id in old(db.jobs) then old(db.jobs)[w.id].status else Other(""), w)
      ensures !failed && Accepts(Job, old(db.jobs), w) ==>
                || Transitioned(old(metrics), Other(""), w, metrics)
                || (w.id in old(db.jobs) && Transitioned(old(metrics), old(db.jobs)[w.id].status, w, metrics))
    {
      if JobStatusPriority(w.row.status).None? {
        return false;
      }
      var previous, unread := db.GetJobStatus(w.id);
      var updated;
      updated, failed := db.AddOrUpdateJob(w);
      if failed || !updated {
        return;
      }
      HandleJobStatusTransition(previous, w);
      AfterTransitionIs(old(metrics), previous, w);
    }

    method HandleJobStatusTransition(previous: JobStatus, w: JobWrite)
      modifies this
      ensures metrics == AfterTransition(old(metrics), previous, w)
      ensures Transitioned(old(metrics), previous, w, metrics)
    {
      AfterTransitionIs(metrics, previous, w);
      if previous == w.row.status {
        return;
      }
      var runner := "(unlabeled)";
      if |w.row.fields.labels| > 0 {
        runner := w.row.fields.labels[0];
      }
      if previous == Queued && w.row.fields.startedAt.Some? {
        var queueTime := w.row.fields.startedAt.value - w.row.createdAt;
        metrics := metrics.(queueTimes := metrics.queueTimes + [QueueTime(runner, queueTime)],
                            observedJobs := metrics.observedJobs + multiset{w.id});
      }
      if w.row.status == Completed && w.row.fields.conclusion != "" {
        metrics := metrics.(conclusions := metrics.conclusions + multiset{w.row.fields.conclusion});
      }
    }
  }

  // ---- interleaved calls ----------------------------------------------------------

  /** A handler call in progress: it has read the previous status, or has also written. */
  datatype Call = Begun(write: JobWrite, prev: JobStatus) | Written(write: JobWrite, prev: JobStatus)

  /** `lost`: conclusions of writes whose commit reported an error after taking effect, for
      which the handler stops before counting. `clean`: no two calls for one job have
      overlapped. */
  datatype Calls = Calls(
    jobs: JobTable, active: map<nat, Call>, metrics: Metrics, lost: multiset<string>, clean: bool)

  datatype WriteOutcome = WriteOk | WriteFailed | WriteDurable

  datatype CallStep =
    | Begin(call: nat, write: JobWrite, readOk: bool)
    | DoWrite(call: nat, outcome: WriteOutcome)
    | Finish(call: nat)
    | SweepStale(cutoff: int, now: int)

  function CurrentStatus(t: JobTable, id: int): JobStatus {
    if id in t then t[id].status else Other("")
  }

  predicate CallEnabled(s: Calls, step: CallStep) {
    match step
    case Begin(k, w, _) => k !in s.active && Known(Job, w.row.status)
    case DoWrite(k, _) => k in s.active && s.active[k].Begun?
    case Finish(k) => k in s.active && s.active[k].Written?
    case SweepStale(_, _) => true
  }

  /** The conclusion an accepted write adds to the table. */
  function ConclusionOf(w: JobWrite): multiset<string> {
    if w.row.status == Completed then multiset{w.row.fields.conclusion} else multiset{}
  }

  function AfterWrite(s: Calls, k: nat, o: WriteOutcome): Calls
    requires k in s.active
  {
    var w := s.active[k].write;
    var accepted := Accepts(Job, s.jobs, w);
    match o
    case WriteFailed => s.(active := s.active - {k})
    case WriteDurable =>
      s.(jobs := Upsert(Job, s.jobs, w), active := s.active - {k},
         lost := s.lost + if accepted then ConclusionOf(w) else multiset{})
    case WriteOk =>
      if accepted
      then s.(jobs := Upsert(Job, s.jobs, w), active := s.active[k := Written(w, s.active[k].prev)])
      else s.(active := s.active - {k})
  }

  function AfterCall(s: Calls, step: CallStep): Calls
    requires CallEnabled(s, step)
  {
    match step
    case Begin(k, w, readOk) =>
      s.(active := s.active[k := Begun(w, if readOk then CurrentStatus(s.jobs, w.id) else Other(""))],
         clean := s.clean && forall j :: j in s.active ==> s.active[j].write.id != w.id)
    case DoWrite(k, o) => AfterWrite(s, k, o)
    case Finish(k) =>
      s.(active := s.active - {k},
         metrics := AfterTransition(s.metrics, s.active[k].prev, s.active[k].write))
    case SweepStale(cutoff, now) => s.(jobs := SweepJobs(s.jobs, cutoff, now))
  }

  predicate CallsInit(s: Calls) {
    && TableKnown(Job, s.jobs) && s.active == map[] && s.clean
    && s.metrics == Metrics(multiset{}, [], multiset{}) && s.lost == multiset{}
  }

  ghost predicate CallNext(s: Calls, s': Calls) {
    exists step :: CallEnabled(s, step) && s' == AfterCall(s, step)
  }

  ghost predicate CallsRun(run: seq<Calls>) {
    && run != [] && CallsInit(run[0])
    && forall i :: 0 <= i < |run| - 1 ==> CallNext(run[i], run[i + 1])
  }

  /** A call with no other step in between does what HandleEvent promises. */
  lemma UndisturbedCall(s: Calls, k: nat, w: JobWrite, readOk: bool)
    requires k !in s.active && Known(Job, w.row.status)
    ensures var s1 := AfterCall(s, Begin(k, w, readOk));
            var s2 := AfterCall(s1, DoWrite(k, WriteOk));
            var s3 := if CallEnabled(s2, Finish(k)) then AfterCall(s2, Finish(k)) else s2;
            && s3.jobs == Upsert(Job, s.jobs, w) && s3.active == s.active
            && s3.metrics == if Accepts(Job, s.jobs, w)
                             then AfterTransition(
                               s.metrics, if readOk then CurrentStatus(s.jobs, w.id) else Other(""), w)
                             else s.metrics
  {
    var s1 := AfterCall(s, Begin(k, w, readOk));
    var s2 := AfterCall(s1, DoWrite(k, WriteOk));
    assert s1.active - {k} == s.active;
    assert s2.active - {k} == s.active;
  }

  // ---- the conclusion counter -----------------------------------------------------

  function CompletedWith(t: JobTable, c: string): set<int> {
    set id | id in t && t[id].status == Completed && t[id].fields.conclusion == c
  }

  predicate Awaits(call: Call, c: string) {
    call.Written? && call.write.row.status == Completed && call.write.row.fields.conclusion == c
  }

  /** Calls whose write is in the table but not yet counted. */
  function Uncounted(active: map<nat, Call>, c: string): set<nat> {
    set k | k in active && Awaits(active[k], c)
  }

  lemma UncountedRemove(active: map<nat, Call>, k: nat, c: string)
    requires k in active
    ensures |Uncounted(active - {k}, c)| + (if Awaits(active[k], c) then 1 else 0) == |Uncounted(active, c)|
  {
    if Awaits(active[k], c) {
      AddOne(Uncounted(active, c), Uncounted(active - {k}, c), k);
    } else {
      assert Uncounted(active, c) == Uncounted(active - {k}, c);
    }
  }

  lemma UncountedSet(active: map<nat, Call>, k: nat, call: Call, c: string)
    requires k in active ==> !Awaits(active[k], c)
    ensures |Uncounted(active[k := call], c)| == |Uncounted(active, c)| + if Awaits(call, c) then 1 else 0
  {
    if Awaits(call, c) {
      AddOne(Uncounted(active[k := call], c), Uncounted(active, c), k);
    } else {
      assert Uncounted(active[k := call], c) == Uncounted(active, c);
    }
  }

  predicate PreviousHolds(t: JobTable, call: Call) {
    call.prev == Completed ==>
      && CurrentStatus(t, call.write.id) == Completed
      && (call.Written? ==> call.write.row.status != Completed)
  }

  /** A previous status of `completed` is still true of the row, so such a call cannot complete
      the job again. */
  predicate PreviousOk(s: Calls) {
    forall k :: k in s.active ==> PreviousHolds(s.jobs, s.active[k])
  }

  predicate CounterExact(base: JobTable, s: Calls, c: string) {
    |CompletedWith(s.jobs, c)| ==
      |CompletedWith(base, c)| + s.metrics.conclusions[c] + s.lost[c] + |Uncounted(s.active, c)|
  }

  lemma CompletedStays(s: Calls, step: CallStep, id: int)
    requires CallEnabled(s, step) && CurrentStatus(s.jobs, id) == Completed
    ensures CurrentStatus(AfterCall(s, step).jobs, id) == Completed
  {
  }

  lemma PreviousStep(s: Calls, step: CallStep)
    requires PreviousOk(s) && CallEnabled(s, step)
    ensures PreviousOk(AfterCall(s, step))
  {
    var s' := AfterCall(s, step);
    forall k | k in s'.active ensures PreviousHolds(s'.jobs, s'.active[k]) {
      if k in s.active && s'.active[k].write == s.active[k].write && s.active[k].prev == Completed {
        assert PreviousHolds(s.jobs, s.active[k]);
        CompletedStays(s, step, s.active[k].write.id);
      }
    }
  }

  lemma AddOne<T>(whole: set<T>, part: set<T>, x: T)
    requires x !in part && whole == part + {x}
    ensures |whole| == |part| + 1
  {
  }

  /** What an accepted write does to the completed rows. */
  lemma CompletedAfter(t: JobTable, w: JobWrite, c: string)
    requires Accepts(Job, t, w)
    ensures |CompletedWith(Upsert(Job, t, w), c)| == |CompletedWith(t, c)| + ConclusionOf(w)[c]
  {
    var t' := Upsert(Job, t, w);
    if w.row.status == Completed && w.row.fields.conclusion == c {
      assert CompletedWith(t', c) == CompletedWith(t, c) + {w.id};
      AddOne(CompletedWith(t', c), CompletedWith(t, c), w.id);
    } else {
      assert CompletedWith(t', c) == CompletedWith(t, c);
    }
  }

  lemma CounterWrite(base: JobTable, s: Calls, k: nat, o: WriteOutcome, c: string)
    requires k in s.active && s.active[k].Begun? && CounterExact(base, s, c)
    ensures CounterExact(base, AfterWrite(s, k, o), c)
  {
    var w := s.active[k].write;
    UncountedRemove(s.active, k, c);
    UncountedSet(s.active, k, Written(w, s.active[k].prev), c);
    if Accepts(Job, s.jobs, w) {
      CompletedAfter(s.jobs, w, c);
    }
  }

  lemma ConclusionCounted(m: Metrics, prev: JobStatus, w: JobWrite, c: string)
    requires c != "" && (w.row.status == Completed ==> prev != Completed)
    ensures AfterTransition(m, prev, w).conclusions[c] == m.conclusions[c] + ConclusionOf(w)[c]
  {
  }

  lemma CounterStep(base: JobTable, s: Calls, step: CallStep, c: string)
    requires PreviousOk(s) && CounterExact(base, s, c) && CallEnabled(s, step) && c != ""
    ensures CounterExact(base, AfterCall(s, step), c)
  {
    match step {
      case Begin(k, w, _) => UncountedSet(s.active, k, AfterCall(s, step).active[k], c);
      case DoWrite(k, o) => CounterWrite(base, s, k, o, c);
      case Finish(k) =>
        UncountedRemove(s.active, k, c);
        ConclusionCounted(s.metrics, s.active[k].prev, s.active[k].write, c);
      case SweepStale(cutoff, now) => SweepKeepsCompleted(s.jobs, cutoff, now, c);
    }
  }

  lemma SweepKeepsCompleted(t: JobTable, cutoff: int, now: int, c: string)
    ensures CompletedWith(SweepJobs(t, cutoff, now), c) == CompletedWith(t, c)
  {
    var t' := SweepJobs(t, cutoff, now);
    forall id ensures id in CompletedWith(t', c) <==> id in CompletedWith(t, c) {
    }
  }

  lemma {:induction false} CounterAlways(run: seq<Calls>, c: string)
    requires CallsRun(run) && c != ""
    ensures PreviousOk(run[|run| - 1]) && CounterExact(run[0].jobs, run[|run| - 1], c)
  {
    var n := |run| - 1;
    if n == 0 {
      assert Uncounted(run[0].active, c) == {};
    } else {
      assert CallNext(run[n - 1], run[n]);
      CounterAlways(run[..n], c);
      var step :| CallEnabled(run[n - 1], step) && run[n] == AfterCall(run[n - 1], step);
      PreviousStep(run[n - 1], step);
      CounterStep(run[0].jobs, run[n - 1], step, c);
    }
  }

  /** With no retention deletes, once no call is in progress, the counter for a non-empty
      conclusion agrees with the table, counting from what the table held at the start, however
      calls for the same job interleaved and whatever the stale sweep did; the two differ by
      exactly the completions whose commit reported an error after taking effect. */
  lemma CounterAgreesWithTable(run: seq<Calls>, c: string)
    requires CallsRun(run) && c != "" && run[|run| - 1].active == map[]
    ensures var s := run[|run| - 1];
            s.metrics.conclusions[c] + s.lost[c] ==
              |set id | id in s.jobs && s.jobs[id].status == Completed && s.jobs[id].fields.conclusion == c|
              - |CompletedWith(run[0].jobs, c)|
  {
    CounterAlways(run, c);
    var s := run[|run| - 1];
    assert Uncounted(s.active, c) == {};
    assert CompletedWith(s.jobs, c) ==
      set id | id in s.jobs && s.jobs[id].status == Completed && s.jobs[id].fields.conclusion == c;
  }

  // ---- queue durations ------------------------------------------------------------

  /** The job has moved beyond `queued`; it never comes back. */
  predicate PastQueue(t: JobTable, id: int) {
    id in t && Rank(Job, t[id].status) > Rank(Job, Queued)
  }

  predicate CallOk(t: JobTable, observed: multiset<int>, call: Call) {
    var id := call.write.id;
    match call
    case Begun(w, prev) => prev == CurrentStatus(t, id) || prev == Other("") || CurrentStatus(t, id) == Stale
    case Written(w, prev) => ObservesQueueTime(prev, w) ==> observed[id] == 0 && PastQueue(t, id)
  }

  ghost predicate QueueInv(s: Calls) {
    && TableKnown(Job, s.jobs)
    && (forall id :: s.metrics.observedJobs[id] > 0 ==> s.metrics.observedJobs[id] == 1 && PastQueue(s.jobs, id))
    && (forall k :: k in s.active ==> CallOk(s.jobs, s.metrics.observedJobs, s.active[k]))
    && (forall j, k :: j in s.active && k in s.active && j != k ==> s.active[j].write.id != s.active[k].write.id)
  }

  lemma PastQueueKept(s: Calls, step: CallStep, id: int)
    requires CallEnabled(s, step) && TableKnown(Job, s.jobs) && PastQueue(s.jobs, id)
    ensures PastQueue(AfterCall(s, step).jobs, id)
  {
  }

  lemma QueueWrite(s: Calls, k: nat, o: WriteOutcome)
    requires k in s.active && s.active[k].Begun? && QueueInv(s)
    ensures QueueInv(AfterWrite(s, k, o))
  {
    var s' := AfterWrite(s, k, o);
    assert s' == AfterCall(s, DoWrite(k, o));
    forall id | s.metrics.observedJobs[id] > 0 ensures PastQueue(s'.jobs, id) {
      PastQueueKept(s, DoWrite(k, o), id);
    }
    forall j | j in s'.active ensures CallOk(s'.jobs, s'.metrics.observedJobs, s'.active[j]) {
      if j == k {
        QueueOwnWrite(s, k);
      } else {
        QueueOtherWrite(s, k, o, j);
      }
    }
  }

  lemma QueueOwnWrite(s: Calls, k: nat)
    requires k in s.active && s.active[k].Begun? && QueueInv(s)
    requires Accepts(Job, s.jobs, s.active[k].write)
    ensures CallOk(Upsert(Job, s.jobs, s.active[k].write), s.metrics.observedJobs,
                   Written(s.active[k].write, s.active[k].prev))
  {
    assert CallOk(s.jobs, s.metrics.observedJobs, s.active[k]);
  }

  lemma QueueOtherWrite(s: Calls, k: nat, o: WriteOutcome, j: nat)
    requires k in s.active && s.active[k].Begun? && QueueInv(s) && j in s.active && j != k
    ensures CallOk(AfterWrite(s, k, o).jobs, s.metrics.observedJobs, s.active[j])
  {
    assert CallOk(s.jobs, s.metrics.observedJobs, s.active[j]);
    assert s.active[j].write.id != s.active[k].write.id;
  }

  lemma QueueFinish(s: Calls, k: nat)
    requires k in s.active && s.active[k].Written? && QueueInv(s)
    ensures QueueInv(AfterCall(s, Finish(k)))
  {
    assert CallOk(s.jobs, s.metrics.observedJobs, s.active[k]);
    var s' := AfterCall(s, Finish(k));
    forall j | j in s'.active ensures CallOk(s'.jobs, s'.metrics.observedJobs, s'.active[j]) {
      assert CallOk(s.jobs, s.metrics.observedJobs, s.active[j]);
    }
  }

  lemma QueueStep(s: Calls, step: CallStep)
    requires CallEnabled(s, step) && QueueInv(s) && AfterCall(s, step).clean
    ensures QueueInv(AfterCall(s, step))
  {
    match step {
      case Begin(_, _, _) =>
      case DoWrite(k, o) => QueueWrite(s, k, o);
      case Finish(k) => QueueFinish(s, k);
      case SweepStale(_, _) =>
        var s' := AfterCall(s, step);
        forall id | PastQueue(s.jobs, id) ensures PastQueue(s'.jobs, id) {
          PastQueueKept(s, step, id);
        }
        forall j | j in s'.active ensures CallOk(s'.jobs, s'.metrics.observedJobs, s'.active[j]) {
          assert CallOk(s.jobs, s.metrics.observedJobs, s.active[j]);
        }
    }
  }

  lemma {:induction false} QueueAlways(run: seq<Calls>)
    requires CallsRun(run) && run[|run| - 1].clean
    ensures QueueInv(run[|run| - 1])
  {
    var n := |run| - 1;
    if n > 0 {
      assert CallNext(run[n - 1], run[n]);
      var step :| CallEnabled(run[n - 1], step) && run[n] == AfterCall(run[n - 1], step);
      QueueAlways(run[..n]);
      QueueStep(run[n - 1], step);
    }
  }

  /** Call k finished in step i of the run, with the write w. */
  predicate FinishedIn(run: seq<Calls>, i: nat, k: nat, w: JobWrite) {
    && i + 1 < |run| && k in run[i].active && run[i].active[k] == Written(w, Queued)
    && run[i + 1] == AfterCall(run[i], Finish(k))
  }

  /** The queue duration of some write that finished in the run: from the job's creation to its
      start, under its first label. */
  ghost predicate DurationOf(run: seq<Calls>, q: QueueTime) {
    exists i: nat, k: nat, w: JobWrite ::
      && FinishedIn(run, i, k, w) && w.row.fields.startedAt.Some?
      && q.seconds == w.row.fields.startedAt.value - w.row.createdAt
      && q.runner == if w.row.fields.labels == [] then "(unlabeled)" else w.row.fields.labels[0]
  }

  /** Over any interleaving of calls, every queue duration recorded is that of a write that was
      accepted after its call read `queued`, and there are as many as jobs observed. */
  lemma {:induction false} DurationsAreReal(run: seq<Calls>)
    requires CallsRun(run)
    ensures forall q :: q in run[|run| - 1].metrics.queueTimes ==> DurationOf(run, q)
    ensures |run[|run| - 1].metrics.queueTimes| == |run[|run| - 1].metrics.observedJobs|
  {
    var n := |run| - 1;
    if n > 0 {
      assert CallNext(run[n - 1], run[n]);
      DurationsAreReal(run[..n]);
      var step :| CallEnabled(run[n - 1], step) && run[n] == AfterCall(run[n - 1], step);
      forall q | q in run[n].metrics.queueTimes ensures DurationOf(run, q) {
        if q in run[n - 1].metrics.queueTimes {
          DurationKept(run, n, q);
        } else {
          NewDuration(run, n - 1, step, q);
        }
      }
      DurationsCounted(run[n - 1], step);
    }
  }

  lemma DurationsCounted(s: Calls, step: CallStep)
    requires CallEnabled(s, step) && |s.metrics.queueTimes| == |s.metrics.observedJobs|
    ensures var m := AfterCall(s, step).metrics; |m.queueTimes| == |m.observedJobs|
  {
  }

  lemma DurationKept(run: seq<Calls>, n: nat, q: QueueTime)
    requires 0 < n <= |run| && DurationOf(run[..n], q)
    ensures DurationOf(run, q)
  {
    var i: nat, k: nat, w: JobWrite :|
      && FinishedIn(run[..n], i, k, w) && w.row.fields.startedAt.Some?
      && q.seconds == w.row.fields.startedAt.value - w.row.createdAt
      && q.runner == if w.row.fields.labels == [] then "(unlabeled)" else w.row.fields.labels[0];
    assert FinishedIn(run, i, k, w);
  }

  lemma NewDuration(run: seq<Calls>, i: nat, step: CallStep, q: QueueTime)
    requires i + 1 < |run| && CallEnabled(run[i], step) && run[i + 1] == AfterCall(run[i], step)
    requires q in run[i + 1].metrics.queueTimes && q !in run[i].metrics.queueTimes
    ensures DurationOf(run, q)
  {
    assert step.Finish?;
    var call := run[i].active[step.call];
    assert q.seconds == call.write.row.fields.startedAt.value - call.write.row.createdAt;
    assert FinishedIn(run, i, step.call, call.write);
  }

  /** If calls for one job never overlapped, each job's queue duration has been recorded at
      most once, even when some reads of the previous status failed. */
  lemma QueueTimeAtMostOnce(run: seq<Calls>, id: int)
    requires CallsRun(run) && run[|run| - 1].clean
    ensures run[|run| - 1].metrics.observedJobs[id] <= 1
  {
    QueueAlways(run);
  }

  function Finished(s: Calls, k: nat): Calls {
    if CallEnabled(s, Finish(k)) then AfterCall(s, Finish(k)) else s
  }

  /** Two calls of which both have begun before either writes, after that of `v` has written. */
  function FirstWrote(s: Calls, i: nat, v: JobWrite, readV: bool, j: nat, w: JobWrite, readW: bool): (s3: Calls)
    requires i != j && i !in s.active && j !in s.active
    requires Known(Job, v.row.status) && Known(Job, w.row.status)
    ensures s3.metrics == s.metrics && s3.jobs == Upsert(Job, s.jobs, v)
    ensures j in s3.active && s3.active[j] == Begun(w, ReadStatus(s.jobs, w, readW))
    ensures i in s3.active <==> Accepts(Job, s.jobs, v)
    ensures i in s3.active ==> s3.active[i] == Written(v, ReadStatus(s.jobs, v, readV))
  {
    var s1 := AfterCall(s, Begin(i, v, readV));
    var s2 := AfterCall(s1, Begin(j, w, readW));
    assert s2.active[i] == Begun(v, ReadStatus(s.jobs, v, readV));
    AfterCall(s2, DoWrite(i, WriteOk))
  }

  function ReadStatus(t: JobTable, w: JobWrite, readOk: bool): JobStatus {
    if readOk then CurrentStatus(t, w.id) else Other("")
  }

  /** When the calls count their transitions: the first before the second writes, or both after
      that, in either order. */
  datatype FinishOrder = FirstEarly | FirstThenSecond | SecondThenFirst

  /** Then that of `w` writes, and those whose write was accepted finish. */
  function Overlapped(s: Calls, i: nat, v: JobWrite, readV: bool, j: nat, w: JobWrite, readW: bool,
                      order: FinishOrder): Calls
    requires i != j && i !in s.active && j !in s.active
    requires Known(Job, v.row.status) && Known(Job, w.row.status)
  {
    var s3 := FirstWrote(s, i, v, readV, j, w, readW);
    match order
    case FirstEarly => Finished(AfterCall(Finished(s3, i), DoWrite(j, WriteOk)), j)
    case FirstThenSecond => Finished(Finished(AfterCall(s3, DoWrite(j, WriteOk)), i), j)
    case SecondThenFirst => Finished(Finished(AfterCall(s3, DoWrite(j, WriteOk)), j), i)
  }

  /** When two writes of a queued job, `v` first, each record its queue duration. */
  predicate BothRecord(v: JobWrite, w: JobWrite) {
    && v.row.fields.startedAt.Some? && w.row.fields.startedAt.Some?
    && Rank(Job, Queued) < Rank(Job, v.row.status) <= Rank(Job, w.row.status)
    && !Terminal(Job, v.row.status)
  }

  /** What overlap does to the queue duration, exactly: over any two writes of a job that stands
      at `queued`, whatever other calls are in progress and in whichever order the two finish, it
      is recorded twice if and only if both reads succeeded, both writes carry a start time, the
      first moves the job on without ending it, and the second does not move it back. */
  lemma OverlapRecordsTwiceIff(s: Calls, i: nat, v: JobWrite, readV: bool, j: nat, w: JobWrite, readW: bool,
                               order: FinishOrder)
    requires i != j && i !in s.active && j !in s.active
    requires Known(Job, v.row.status) && Known(Job, w.row.status)
    requires v.id == w.id && CurrentStatus(s.jobs, v.id) == Queued
    ensures Overlapped(s, i, v, readV, j, w, readW, order).metrics.observedJobs[v.id]
              == s.metrics.observedJobs[v.id] + 2
            <==> readV && readW && BothRecord(v, w)
  {
    var s3 := FirstWrote(s, i, v, readV, j, w, readW);
    FirstRecords(s.jobs, ReadStatus(s.jobs, v, readV), v);
    SecondRecords(s.jobs, v, ReadStatus(s.jobs, w, readW), w);
    if order == FirstEarly {
      FinishRecords(s3, i);
      WriteThenFinish(Finished(s3, i), j);
    } else {
      var s4 := AfterCall(s3, DoWrite(j, WriteOk));
      WriteLeavesOthers(s3, j);
      FinishRecords(s4, i);
      FinishRecords(s4, j);
      FinishRecords(Finished(s4, i), j);
      FinishRecords(Finished(s4, j), i);
    }
  }

  /** What a call that finishes records. */
  function Record(s: Calls, k: nat): multiset<int> {
    if k in s.active && s.active[k].Written? && ObservesQueueTime(s.active[k].prev, s.active[k].write)
    then multiset{s.active[k].write.id} else multiset{}
  }

  lemma FinishRecords(s: Calls, k: nat)
    ensures var s' := Finished(s, k);
            && s'.jobs == s.jobs && s'.metrics.observedJobs == s.metrics.observedJobs + Record(s, k)
            && forall j :: j != k ==>
                 (j in s'.active <==> j in s.active) && (j in s.active ==> s'.active[j] == s.active[j])
  {
  }

  lemma WriteLeavesOthers(s: Calls, k: nat)
    requires k in s.active && s.active[k].Begun?
    ensures var s', w := AfterCall(s, DoWrite(k, WriteOk)), s.active[k].write;
            && s'.metrics == s.metrics
            && (k in s'.active <==> Accepts(Job, s.jobs, w))
            && (k in s'.active ==> s'.active[k] == Written(w, s.active[k].prev))
            && forall j :: j != k ==>
                 (j in s'.active <==> j in s.active) && (j in s.active ==> s'.active[j] == s.active[j])
  {
  }

  lemma WriteThenFinish(s: Calls, k: nat)
    requires k in s.active && s.active[k].Begun?
    ensures var s', w := Finished(AfterCall(s, DoWrite(k, WriteOk)), k), s.active[k].write;
            s'.metrics.observedJobs == s.metrics.observedJobs +
              if Accepts(Job, s.jobs, w) && ObservesQueueTime(s.active[k].prev, w)
              then multiset{w.id} else multiset{}
  {
    WriteLeavesOthers(s, k);
    FinishRecords(AfterCall(s, DoWrite(k, WriteOk)), k);
  }

  lemma FirstRecords(t: JobTable, prev: JobStatus, v: JobWrite)
    requires Known(Job, v.row.status) && CurrentStatus(t, v.id) == Queued
    ensures Accepts(Job, t, v) && ObservesQueueTime(prev, v) <==>
            prev == Queued && v.row.fields.startedAt.Some? && Rank(Job, Queued) < Rank(Job, v.row.status)
  {
  }

  lemma SecondRecords(t: JobTable, v: JobWrite, prev: JobStatus, w: JobWrite)
    requires Known(Job, v.row.status) && Known(Job, w.row.status) && v.id == w.id
    requires CurrentStatus(t, v.id) == Queued
    ensures Rank(Job, Queued) < Rank(Job, v.row.status) ==>
              (Accepts(Job, Upsert(Job, t, v), w) && ObservesQueueTime(prev, w) <==>
                 && prev == Queued && w.row.fields.startedAt.Some?
                 && !Terminal(Job, v.row.status) && Rank(Job, v.row.status) <= Rank(Job, w.row.status))
  {
  }

  /** So runs in which it is recorded twice exist, for every such pair of writes. */
  lemma OverlapRecordsTwice(s0: Calls, v: JobWrite, w: JobWrite)
    requires CallsInit(s0) && Known(Job, v.row.status) && Known(Job, w.row.status)
    requires v.id == w.id && CurrentStatus(s0.jobs, v.id) == Queued && BothRecord(v, w)
    ensures exists run: seq<Calls> :: CallsRun(run) && run[0] == s0 && run[|run| - 1].metrics.observedJobs[v.id] == 2
  {
    var run := FirstWroteRun(s0, v, w);
    var s3 := run[|run| - 1];
    FirstRecords(s0.jobs, Queued, v);
    SecondRecords(s0.jobs, v, Queued, w);
    WriteLeavesOthers(s3, 1);
    FinishRecords(AfterCall(s3, DoWrite(1, WriteOk)), 0);
    run := Extended(run, DoWrite(1, WriteOk));
    run := Extended(run, Finish(0));
    run := Extended(run, Finish(1));
    OverlapRecordsTwiceIff(s0, 0, v, true, 1, w, true, FirstThenSecond);
  }

  lemma FirstWroteRun(s0: Calls, v: JobWrite, w: JobWrite) returns (run: seq<Calls>)
    requires CallsInit(s0) && Known(Job, v.row.status) && Known(Job, w.row.status)
    ensures CallsRun(run) && run[0] == s0 && run[|run| - 1] == FirstWrote(s0, 0, v, true, 1, w, true)
  {
    run := Extended([s0], Begin(0, v, true));
    run := Extended(run, Begin(1, w, true));
    run := Extended(run, DoWrite(0, WriteOk));
  }

  lemma Extended(run: seq<Calls>, step: CallStep) returns (run': seq<Calls>)
    requires CallsRun(run) && CallEnabled(run[|run| - 1], step)
    ensures CallsRun(run') && run'[0] == run[0] && run'[|run'| - 1] == AfterCall(run[|run| - 1], step)
  {
    run' := run + [AfterCall(run[|run| - 1], step)];
    assert CallNext(run[|run| - 1], run'[|run|]);
  }

  /** A commit that reports an error after taking effect is all it takes for the counter to lag:
      from any start, one call completing a new job leaves its conclusion uncounted for good. */
  lemma CommitErrorLosesCount(s0: Calls, w: JobWrite)
    requires CallsInit(s0) && w.id !in s0.jobs && w.row.status == Completed
    ensures exists run: seq<Calls> ::
              && CallsRun(run) && run[0] == s0 && run[|run| - 1].active == map[]
              && run[|run| - 1].lost[w.row.fields.conclusion] == 1
              && run[|run| - 1].metrics.conclusions[w.row.fields.conclusion] == 0
              && CurrentStatus(run[|run| - 1].jobs, w.id) == Completed
  {
    var run := Extended([s0], Begin(0, w, true));
    run := Extended(run, DoWrite(0, WriteDurable));
  }
}
