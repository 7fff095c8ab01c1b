/** What holds in every reachable state of the ingest pipeline, and at its quiescent and final
    states, over every interleaving of workers, senders, faults, shutdown and cleanup. */
module PipelineTheorems {
  import opened Base
  import opened Status
  import opened Lifecycle
  import opened Records
  import opened EventTable
  import opened Database
  import opened Pipeline
  import opened PipelineInvariants
  import opened PipelineCoverage

  ghost predicate Inv(c: Config, s: State) {
    && Conserved(s.mem) && Bounded(c, s.mem) && BuffersOk(s.mem) && TailOk(s.mem)
    && RowsOk(s.db.events) && RowsHaveOrigin(s.mem.accepted, s.db.events) && ColdInv(s)
    && TablesOk(s.db) && WritesOk(s.mem.accepted, s.db) && CoverInv(s)
    && OrderOk(s) && DrainOk(s)
  }

  lemma InitInv(c: Config, s: State)
    requires Init(s)
    ensures Inv(c, s)
  {
    InitMemory(c, s.mem);
    InitBacklog(s);
    InitDatabase(s);
  }

  lemma InitDatabase(s: State)
    requires Init(s)
    ensures RowsOk(s.db.events) && TablesOk(s.db) && WritesOk(s.mem.accepted, s.db)
    ensures ColdInv(s) && OrderOk(s) && DrainOk(s)
  {
    forall id ensures JobRowOk(s.db, id) && RunRowOk(s.db, id) {
    }
  }

  lemma InitMemory(c: Config, m: Memory)
    requires m == Memory([], [], ISelect, m.accepted, multiset(m.accepted), multiset{}, multiset{}, multiset{}, 0)
    ensures Conserved(m) && Bounded(c, m) && BuffersOk(m) && TailOk(m)
  {
    assert multiset(m.ch) == multiset{} && multiset(m.spill) == multiset{};
  }

  lemma InitBacklog(s: State)
    requires Init(s)
    ensures RowsHaveOrigin(s.mem.accepted, s.db.events) && CoverInv(s)
  {
    forall d | PendingRow(s.db.events, d) ensures RowOrigin(s.mem.accepted, d, s.db.events[d]) {
      assert d in PendingIds(s.db.events);
      assert EventOf(d, s.db.events[d]) in s.mem.accepted;
    }
    forall e | e in s.mem.stored ensures Covered(s.db, e) {
      assert e in s.mem.accepted;
    }
  }

  lemma InvStep(c: Config, s: State, step: Step)
    requires Inv(c, s) && Enabled(c, s, step)
    ensures Inv(c, Do(c, s, step))
  {
    ConservedStep(c, s, step);
    BoundedStep(c, s, step);
    BuffersStep(c, s, step);
    TailStep(c, s, step);
    RowsStep(c, s, step);
    RowsHaveOriginStep(c, s, step);
    ColdStep(c, s, step);
    TablesStep(c, s, step);
    WritesStep(c, s, step);
    CoverInvStep(c, s, step);
    OrderStep(c, s, step);
    DrainStep(c, s, step);
  }

  lemma {:induction false} Reachable(c: Config, run: seq<State>)
    requires IsRun(c, run)
    ensures Inv(c, Last(run))
  {
    var n := |run| - 1;
    if n == 0 {
      InitInv(c, run[0]);
    } else {
      assert Next(c, run[n - 1], run[n]);
      Reachable(c, run[..n]);
      var step :| Enabled(c, run[n - 1], step) && run[n] == Do(c, run[n - 1], step);
      InvStep(c, run[n - 1], step);
    }
  }

  /** Conservation: in every reachable state each accepted occurrence is in exactly one place,
      the channel is within capacity, and the spill buffer below the batch size (or empty,
      should that size be 0) whenever the ingest worker is between loop iterations. */
  lemma Conservation(c: Config, run: seq<State>)
    requires IsRun(c, run)
    ensures var m := Last(run).mem;
            && multiset(m.accepted) ==
                 multiset(m.ch) + (if m.ipc.IBusy? then multiset{m.ipc.event} else multiset{})
                 + multiset(m.spill) + m.stored + m.hot + m.permanent + m.spillFailed
            && |m.ch| <= c.capacity
            && (!m.ipc.ICheck? ==> |m.spill| < c.ingestBatchSize || m.spill == [])
            && |m.spill| <= c.ingestBatchSize + 1
  {
    Reachable(c, run);
  }

  /** No event of a registered type is ever dropped as a permanent failure, so behind Ingest's
      registration gate nothing is. */
  lemma PermanentMeansUnregistered(c: Config, run: seq<State>)
    requires IsRun(c, run)
    ensures forall e :: e in Last(run).mem.permanent ==> !Registered(e.body)
    ensures (forall e :: e in Last(run).mem.accepted ==> Registered(e.body)) ==>
              Last(run).mem.permanent == multiset{}
  {
    Reachable(c, run);
    var m := Last(run).mem;
    forall e | e in m.permanent ensures e in m.accepted {
      HeldWasAccepted(m, e);
    }
  }

  /** The spill table, over all runs and whatever re-spills interleave with a cold batch: a row
      is processed exactly when processed_at is set, a pending row always has a payload, every
      row has a registered type, and the retention delete spares every unprocessed row. */
  lemma EventTableInvariant(c: Config, run: seq<State>, cutoff: int)
    requires IsRun(c, run)
    ensures var t := Last(run).db.events;
            && (forall d :: d in t ==>
                  && (t[d].status == Processed <==> t[d].processedAt.Some?)
                  && (t[d].status == Pending ==> t[d].payload.Some?)
                  && !t[d].eventType.Unregistered?)
            && (forall d :: d in t && t[d].status != Processed ==>
                  d in Expire(t, cutoff) && Expire(t, cutoff)[d] == t[d])
  {
    Reachable(c, run);
  }

  /** Where an accepted event can be. */
  ghost predicate Accounted(s: State, e: OrderedEvent) {
    || e in s.mem.ch || e in InFlight(s.mem) || e in s.mem.spill
    || (e in s.mem.permanent && !Registered(e.body))
    || e in s.mem.spillFailed
    || Applied(s.db, e.body)
    || Unprocessed(s.db.events, e.deliveryId)
  }

  /** No silent loss: in every reachable state an accepted event is still in memory, was
      dropped for its unregistered type, was reported lost by a failed spill, has been applied
      to its typed table, or has a pending or failed row. */
  lemma NoSilentLoss(c: Config, run: seq<State>, e: OrderedEvent)
    requires IsRun(c, run) && e in Last(run).mem.accepted && Consistent(Last(run).mem.accepted)
    ensures Accounted(Last(run), e)
  {
    Reachable(c, run);
    var s := Last(run);
    assert e in multiset(s.mem.accepted);
    if e in s.mem.stored {
      assert Covered(s.db, e);
    }
  }

  // ---- refinement at quiescence ---------------------------------------------------

  function AcceptedJobStatuses(accepted: seq<OrderedEvent>, id: int): set<JobStatus> {
    set e | e in accepted && e.body.JobBody? && e.body.job.id == id :: e.body.job.row.status
  }

  function AcceptedRunStatuses(accepted: seq<OrderedEvent>, id: int): set<JobStatus> {
    set e | e in accepted && e.body.RunBody? && e.body.run.id == id :: e.body.run.row.status
  }

  /** Channel, worker and spill buffer are empty, no spill was lost, and no accepted event's
      row is pending or failed. */
  ghost predicate Quiescent(s: State) {
    && s.mem.ch == [] && !s.mem.ipc.IBusy? && s.mem.spill == [] && s.mem.spillFailed == multiset{}
    && forall e :: e in s.mem.accepted ==> !Unprocessed(s.db.events, e.deliveryId)
  }

  lemma QuiescentMeansApplied(c: Config, run: seq<State>, e: OrderedEvent)
    requires IsRun(c, run) && Quiescent(Last(run)) && Consistent(Last(run).mem.accepted)
    requires e in Last(run).mem.accepted && Registered(e.body)
    ensures Applied(Last(run).db, e.body)
  {
    NoSilentLoss(c, run, e);
  }

  lemma AppliedJobStatuses(c: Config, run: seq<State>, id: int)
    requires IsRun(c, run) && Quiescent(Last(run)) && Consistent(Last(run).mem.accepted)
    ensures StatusesFor(Last(run).db.jobWrites, id) == AcceptedJobStatuses(Last(run).mem.accepted, id)
  {
    var s := Last(run);
    Reachable(c, run);
    forall x | x in StatusesFor(s.db.jobWrites, id) ensures x in AcceptedJobStatuses(s.mem.accepted, id) {
      var w :| w in s.db.jobWrites && w.id == id && w.row.status == x;
      var e :| e in s.mem.accepted && e.body == JobBody(w);
    }
    forall e | e in s.mem.accepted && e.body.JobBody? && e.body.job.id == id
      ensures e.body.job.row.status in StatusesFor(s.db.jobWrites, id)
    {
      QuiescentMeansApplied(c, run, e);
    }
  }

  lemma AppliedRunStatuses(c: Config, run: seq<State>, id: int)
    requires IsRun(c, run) && Quiescent(Last(run)) && Consistent(Last(run).mem.accepted)
    ensures StatusesFor(Last(run).db.runWrites, id) == AcceptedRunStatuses(Last(run).mem.accepted, id)
  {
    var s := Last(run);
    Reachable(c, run);
    forall x | x in StatusesFor(s.db.runWrites, id) ensures x in AcceptedRunStatuses(s.mem.accepted, id) {
      var w :| w in s.db.runWrites && w.id == id && w.row.status == x;
      var e :| e in s.mem.accepted && e.body == RunBody(w);
    }
    forall e | e in s.mem.accepted && e.body.RunBody? && e.body.run.id == id
      ensures e.body.run.row.status in StatusesFor(s.db.runWrites, id)
    {
      QuiescentMeansApplied(c, run, e);
    }
  }

  /** The pipeline refines "apply every event": whatever the interleaving of hot, spilled and
      cold handling, stale sweeps and retention, with failed marks replayed and failed commits
      that took effect, at quiescence a job that no sweep has marked and a run stand at a
      highest-priority status among their accepted events and the status they started from,
      and a job that a sweep has marked stands at `stale`. Only rows that the retention delete
      has removed are left out. */
  lemma PipelineRefinesUpserts(c: Config, run: seq<State>, id: int)
    requires IsRun(c, run) && Quiescent(Last(run)) && Consistent(Last(run).mem.accepted)
    ensures var s := Last(run);
            && (id !in s.db.deletedJobs ==>
                  if id in s.db.sweptJobs then StatusOf(s.db.jobs, id) == Some(Stale)
                  else Highest(Job, AcceptedJobStatuses(s.mem.accepted, id) + Stored(StatusOf(s.db.jobs0, id)),
                               StatusOf(s.db.jobs, id)))
            && (id !in s.db.deletedRuns ==>
                  Highest(Run, AcceptedRunStatuses(s.mem.accepted, id) + Stored(StatusOf(s.db.runs0, id)),
                          StatusOf(s.db.runs, id)))
  {
    Reachable(c, run);
    var s := Last(run);
    assert JobRowOk(s.db, id) && RunRowOk(s.db, id);
    AppliedJobStatuses(c, run, id);
    AppliedRunStatuses(c, run, id);
    FoldIsHighest(Job, s.db.jobs0, s.db.jobWrites, id);
    FoldIsHighest(Run, s.db.runs0, s.db.runWrites, id);
  }

  predicate OneTerminalIn(k: Kind, statuses: set<JobStatus>) {
    forall a, b :: a in statuses && b in statuses && Terminal(k, a) && Terminal(k, b) ==> a == b
  }

  /** What a quiescent run has been told of a job or run: the statuses accepted, and the one it
      started from. */
  function JobStatusesKnown(s: State, id: int): set<JobStatus> {
    AcceptedJobStatuses(s.mem.accepted, id) + Stored(StatusOf(s.db.jobs0, id))
  }

  function RunStatusesKnown(s: State, id: int): set<JobStatus> {
    AcceptedRunStatuses(s.mem.accepted, id) + Stored(StatusOf(s.db.runs0, id))
  }

  /** Convergence: two quiescent runs that know the same statuses of a job, at most one of them
      terminal, agree on that job if neither has deleted it and they agree on whether a sweep
      has marked it, whatever their schedules, retries, delivery orders and starting tables;
      and the same for a workflow run. */
  lemma RunsConverge(c: Config, run: seq<State>, c': Config, run': seq<State>, id: int)
    requires IsRun(c, run) && Quiescent(Last(run)) && Consistent(Last(run).mem.accepted)
    requires IsRun(c', run') && Quiescent(Last(run')) && Consistent(Last(run').mem.accepted)
    ensures var s, s' := Last(run), Last(run');
            && id !in s.db.deletedJobs && id !in s'.db.deletedJobs
            && (id in s.db.sweptJobs <==> id in s'.db.sweptJobs)
            && JobStatusesKnown(s, id) == JobStatusesKnown(s', id) && OneTerminalIn(Job, JobStatusesKnown(s, id))
            ==> StatusOf(s.db.jobs, id) == StatusOf(s'.db.jobs, id)
    ensures var s, s' := Last(run), Last(run');
            && id !in s.db.deletedRuns && id !in s'.db.deletedRuns
            && RunStatusesKnown(s, id) == RunStatusesKnown(s', id) && OneTerminalIn(Run, RunStatusesKnown(s, id))
            ==> StatusOf(s.db.runs, id) == StatusOf(s'.db.runs, id)
  {
    PipelineRefinesUpserts(c, run, id);
    PipelineRefinesUpserts(c', run', id);
    var s, s' := Last(run), Last(run');
    var jobs, runs := JobStatusesKnown(s, id), RunStatusesKnown(s, id);
    if && id !in s.db.deletedJobs + s.db.sweptJobs && id !in s'.db.deletedJobs + s'.db.sweptJobs
       && jobs == JobStatusesKnown(s', id) && OneTerminalIn(Job, jobs) {
      HighestIsUnique(Job, jobs, StatusOf(s.db.jobs, id), StatusOf(s'.db.jobs, id));
    }
    if && id !in s.db.deletedRuns && id !in s'.db.deletedRuns
       && runs == RunStatusesKnown(s', id) && OneTerminalIn(Run, runs) {
      HighestIsUnique(Run, runs, StatusOf(s.db.runs, id), StatusOf(s'.db.runs, id));
    }
  }

  /** No invented rows: in every reachable state the row of a job that no sweep has marked, or
      of a run, is in every column the row it started with or the payload of an accepted event
      for it; and when there was none to start with, it is the payload that decides among the
      writes handled so far: the first terminal one, else the last of highest priority. */
  lemma StoredRowWasAccepted(c: Config, run: seq<State>, id: int)
    requires IsRun(c, run)
    ensures var s := Last(run);
            id in s.db.jobs && id !in s.db.sweptJobs + s.db.deletedJobs ==>
              && ((id in s.db.jobs0 && s.db.jobs[id] == s.db.jobs0[id])
                  || BodyAccepted(s.mem.accepted, JobBody(Write(id, s.db.jobs[id]))))
              && (id !in s.db.jobs0 ==>
                    exists i :: Decides(Job, s.db.jobWrites, id, i) && s.db.jobs[id] == s.db.jobWrites[i].row)
    ensures var s := Last(run);
            id in s.db.runs && id !in s.db.deletedRuns ==>
              && ((id in s.db.runs0 && s.db.runs[id] == s.db.runs0[id])
                  || BodyAccepted(s.mem.accepted, RunBody(Write(id, s.db.runs[id]))))
              && (id !in s.db.runs0 ==>
                    exists i :: Decides(Run, s.db.runWrites, id, i) && s.db.runs[id] == s.db.runWrites[i].row)
  {
    Reachable(c, run);
    var s := Last(run);
    assert JobRowOk(s.db, id) && RunRowOk(s.db, id);
    FoldRowOrigin(Job, s.db.jobs0, s.db.jobWrites, id);
    FoldRowOrigin(Run, s.db.runs0, s.db.runWrites, id);
  }

  // ---- shutdown -------------------------------------------------------------------

  /** Both workers have returned, which is what Stop waits for. */
  predicate Stopped(s: State) {
    s.mem.ipc.IDone? && s.fpc.FDone?
  }

  /** Shutdown: when Stop returns, the spill buffer is empty and the channel holds exactly what
      was sent after the drain's last empty poll. If the final flush met no fault, no row is
      pending, and if no spill was lost either, every event sent before that poll has been
      applied, was dropped for its unregistered type, or has its row marked failed. */
  lemma ShutdownDrains(c: Config, run: seq<State>)
    requires IsRun(c, run) && Stopped(Last(run))
    ensures var s := Last(run);
            && s.cancelled && s.mem.spill == []
            && s.mem.polledAt <= |s.mem.accepted| && s.mem.ch == s.mem.accepted[s.mem.polledAt..]
            && (!s.finalFault ==> PendingIds(s.db.events) == {})
            && (!s.finalFault && s.mem.spillFailed == multiset{} && Consistent(s.mem.accepted) ==>
                  forall i :: 0 <= i < s.mem.polledAt ==> Settled(s, s.mem.accepted[i]))
  {
    Reachable(c, run);
    var s := Last(run);
    if !s.finalFault && s.mem.spillFailed == multiset{} && Consistent(s.mem.accepted) {
      forall i | 0 <= i < s.mem.polledAt ensures Settled(s, s.mem.accepted[i]) {
        var e := s.mem.accepted[i];
        SentBeforePoll(s.mem, i);
        assert e in s.mem.stored ==> Covered(s.db, e);
        assert Unprocessed(s.db.events, e.deliveryId) ==> !PendingRow(s.db.events, e.deliveryId);
      }
    }
    assert !s.finalFault ==> forall d :: d in PendingIds(s.db.events) ==> PendingRow(s.db.events, d);
  }

  /** An event sent before the last poll has left memory by the time the worker is done, even
      if an equal one is in the channel. */
  lemma SentBeforePoll(m: Memory, i: nat)
    requires Conserved(m) && TailOk(m) && m.ipc.IDone? && m.spill == [] && i < m.polledAt
    ensures var e := m.accepted[i];
            e in m.stored || e in m.hot || e in m.permanent || e in m.spillFailed
  {
    var before := m.accepted[..m.polledAt];
    assert m.accepted == before + m.ch;
    assert multiset(m.accepted) == multiset(before) + multiset(m.ch);
    var e := before[i];
    assert multiset(before)[e] > 0;
    assert multiset(m.accepted)[e] == multiset(before)[e] + multiset(m.ch)[e];
    var rest := m.stored + m.hot + m.permanent + m.spillFailed;
    assert multiset(m.accepted) == multiset(m.ch) + rest;
    assert rest[e] > 0;
  }

  predicate Settled(s: State, e: OrderedEvent) {
    || Applied(s.db, e.body)
    || (e in s.mem.permanent && !Registered(e.body))
    || (e.deliveryId in s.db.events && s.db.events[e.deliveryId].status == Failed)
  }

  lemma Extended(c: Config, run: seq<State>, step: Step) returns (run': seq<State>)
    requires IsRun(c, run) && Enabled(c, Last(run), step)
    ensures IsRun(c, run') && run'[0] == run[0] && Last(run') == Do(c, Last(run), step)
  {
    run' := run + [Do(c, Last(run), step)];
    assert Next(c, run[|run| - 1], run'[|run|]);
  }

  /** The channel need not end up empty: from any start with nothing pending, an event sent
      after the drain's last empty poll is accepted and stays there, with no fault anywhere. */
  lemma LateSendIsStranded(c: Config, s0: State, e: OrderedEvent)
    requires c.capacity >= 1 && Init(s0) && PendingIds(s0.db.events) == {} && Fresh(e)
    ensures exists run: seq<State> ::
              && IsRun(c, run) && run[0] == s0 && Stopped(Last(run)) && !Last(run).finalFault
              && Last(run).mem.spillFailed == multiset{} && Last(run).db == s0.db
              && Last(run).mem.accepted == s0.mem.accepted + [e] && Last(run).mem.ch == [e]
  {
    var run := LateSend(c, s0, e);
    run := FlushOfNothing(c, run);
  }

  /** Shutdown up to the end of the ingest worker, with a send after its last poll. */
  lemma LateSend(c: Config, s0: State, e: OrderedEvent) returns (run: seq<State>)
    requires c.capacity >= 1 && Init(s0) && Fresh(e)
    ensures IsRun(c, run) && run[0] == s0
    ensures var s := Last(run);
            && s.cancelled && s.mem.ipc.IDone? && s.mem.ch == [e] && s.mem.accepted == s0.mem.accepted + [e]
            && s.mem.spillFailed == multiset{} && s.db == s0.db && s.fpc.FSelect? && !s.finalFault
  {
    run := IdleDrain(c, s0);
    run := Extended(c, run, Enqueue(e));
    run := Extended(c, run, FinalSpill(Ok));
  }

  /** A drain that finds nothing, up to its last poll. */
  lemma IdleDrain(c: Config, s0: State) returns (run: seq<State>)
    requires Init(s0)
    ensures IsRun(c, run) && run[0] == s0
    ensures Last(run) == s0.(cancelled := true, mem := s0.mem.(ipc := IFinal, polledAt := |s0.mem.accepted|))
  {
    run := Extended(c, [s0], Cancel);
    run := Extended(c, run, SeeCancel);
    run := Extended(c, run, PollEmpty);
  }

  /** The final flush of a database with nothing pending. */
  lemma FlushOfNothing(c: Config, run: seq<State>) returns (run': seq<State>)
    requires IsRun(c, run) && Last(run).cancelled && Last(run).mem.ipc.IDone? && Last(run).fpc.FSelect?
    requires PendingIds(Last(run).db.events) == {} && !Last(run).finalFault
    ensures IsRun(c, run') && run'[0] == run[0] && Stopped(Last(run')) && !Last(run').finalFault
    ensures Last(run').mem == Last(run).mem && Last(run').db == Last(run).db
  {
    run' := Extended(c, run, FlushSeeCancel);
    run' := Extended(c, run', AwaitIngest);
    var t := Last(run').db.events;
    assert IsFetch(t, PendingIds(t), FLUSH_PAGE, []) by {
      assert IsPage(t, PendingIds(t), FLUSH_PAGE, []) && FetchedFrom(t, [], []);
    }
    run' := Extended(c, run', FetchAll([]));
  }
}
