/** The invariants that tie the typed tables to the accepted events, and those that order
    shutdown. */
module PipelineCoverage {
  import opened Base
  import opened Status
  import opened Lifecycle
  import opened Records
  import opened EventTable
  import opened Database
  import opened Pipeline
  import opened PipelineInvariants

  // ---- typed tables ---------------------------------------------------------------

  /** The body whose write a step lands in the typed tables, if any. */
  function Landed(s: State, step: Step): Option<Body> {
    match step
    case HotApply(o) => if s.mem.ipc.IBusy? && !o.FailedClean? then Some(s.mem.ipc.event.body) else None
    case ColdApply(o) =>
      if s.fpc.FBatch? && s.fpc.rest != [] && !o.FailedClean? then Some(s.fpc.rest[0].body) else None
    case _ => None
  }

  /** The database but for the event table. */
  function Typed(db: Store): Store {
    db.(events := map[])
  }

  lemma TypedTablesChange(c: Config, s: State, step: Step)
    requires Enabled(c, s, step)
    ensures !step.StaleSweep? && !step.Retain? ==>
              Typed(Do(c, s, step).db) == match Landed(s, step)
                                          case Some(b) => Typed(Land(s.db, b))
                                          case None => Typed(s.db)
    ensures (step.StaleSweep? || step.Retain?) ==>
              var db' := Do(c, s, step).db;
              && Landed(s, step).None?
              && Typed(db') == Typed(s.db).(jobs := db'.jobs, runs := db'.runs, sweptJobs := db'.sweptJobs,
                                            deletedJobs := db'.deletedJobs, deletedRuns := db'.deletedRuns)
  {
  }

  /** The row of `id` in workflow_jobs: what the fold of the writes handled leaves there, unless
      a sweep has marked it stale, which stays, or the retention delete has removed it. */
  ghost predicate JobRowOk(db: Store, id: int) {
    id !in db.deletedJobs ==>
      if id in db.sweptJobs then StatusOf(db.jobs, id) == Some(Stale)
      else AgreesAt(db.jobs, Fold(Job, db.jobs0, db.jobWrites), id)
  }

  ghost predicate RunRowOk(db: Store, id: int) {
    id !in db.deletedRuns ==> AgreesAt(db.runs, Fold(Run, db.runs0, db.runWrites), id)
  }

  ghost predicate TablesOk(db: Store) {
    && TableKnown(Job, db.jobs0) && TableKnown(Run, db.runs0)
    && TableKnown(Job, db.jobs) && TableKnown(Run, db.runs)
    && (forall id :: JobRowOk(db, id))
    && (forall id :: RunRowOk(db, id))
  }

  lemma TablesStep(c: Config, s: State, step: Step)
    requires TablesOk(s.db) && Enabled(c, s, step)
    ensures TablesOk(Do(c, s, step).db)
  {
    TypedTablesChange(c, s, step);
    var db' := Do(c, s, step).db;
    TypedIsEnough(s.db, Typed(s.db));
    if step.StaleSweep? {
      SweepTables(s.db, step.cutoff, step.now);
      assert Typed(db') == Typed(Swept(s.db, step.cutoff, step.now));
      TypedIsEnough(Swept(s.db, step.cutoff, step.now), db');
    } else if step.Retain? {
      RetainTables(s.db, step.cutoff);
      assert Typed(db') == Typed(Retained(s.db, step.cutoff));
      TypedIsEnough(Retained(s.db, step.cutoff), db');
    } else {
      var db1 := match Landed(s, step) case Some(b) => Land(s.db, b) case None => s.db;
      if Landed(s, step).Some? {
        LandTables(s.db, Landed(s, step).value);
      }
      assert Typed(db') == Typed(db1);
      TypedIsEnough(db1, db');
    }
  }

  function Swept(db: Store, cutoff: int, now: int): Store {
    db.(jobs := SweepJobs(db.jobs, cutoff, now), sweptJobs := db.sweptJobs + SweptIds(db.jobs, cutoff))
  }

  function Retained(db: Store, cutoff: int): Store {
    var jobs', runs' := DeleteOlder(db.jobs, cutoff), DeleteOlder(db.runs, cutoff);
    db.(jobs := jobs', runs := runs',
        deletedJobs := db.deletedJobs + (db.jobs.Keys - jobs'.Keys),
        deletedRuns := db.deletedRuns + (db.runs.Keys - runs'.Keys))
  }

  lemma TypedIsEnough(db: Store, db': Store)
    requires Typed(db) == Typed(db')
    ensures TablesOk(db) ==> TablesOk(db')
  {
    assert db' == db.(events := db'.events) by {
      assert Typed(db').jobs == db'.jobs && Typed(db').runs == db'.runs;
      assert Typed(db').(events := db'.events) == db';
      assert Typed(db).(events := db'.events) == db.(events := db'.events);
    }
    forall id | TablesOk(db) ensures JobRowOk(db', id) && RunRowOk(db', id) {
      assert JobRowOk(db, id) && RunRowOk(db, id);
    }
  }

  lemma SweepTables(db: Store, cutoff: int, now: int)
    requires TablesOk(db)
    ensures TablesOk(Swept(db, cutoff, now))
  {
    var db' := Swept(db, cutoff, now);
    forall id ensures JobRowOk(db', id) && RunRowOk(db', id) {
      assert JobRowOk(db, id) && RunRowOk(db, id);
    }
  }

  lemma RetainTables(db: Store, cutoff: int)
    requires TablesOk(db)
    ensures TablesOk(Retained(db, cutoff))
  {
    var db' := Retained(db, cutoff);
    forall id ensures JobRowOk(db', id) && RunRowOk(db', id) {
      assert JobRowOk(db, id) && RunRowOk(db, id);
    }
  }

  lemma LandTables(db: Store, b: Body)
    requires TablesOk(db)
    ensures TablesOk(Land(db, b))
  {
    forall id ensures JobRowOk(Land(db, b), id) && RunRowOk(Land(db, b), id) {
      assert JobRowOk(db, id) && RunRowOk(db, id);
      match b {
        case JobBody(w) => LandJobRow(db, w, id);
        case RunBody(w) => LandRunRow(db, w, id);
        case OtherBody(_) =>
      }
    }
  }

  lemma LandJobRow(db: Store, w: JobWrite, id: int)
    requires JobRowOk(db, id) && TableKnown(Job, db.jobs)
    ensures JobRowOk(Land(db, JobBody(w)), id)
  {
    FoldSnoc(Job, db.jobs0, db.jobWrites, w);
    if id !in db.sweptJobs && id !in db.deletedJobs {
      UpsertIsLocal(Job, db.jobs, Fold(Job, db.jobs0, db.jobWrites), w, id);
    }
  }

  lemma LandRunRow(db: Store, w: RunWrite, id: int)
    requires RunRowOk(db, id)
    ensures RunRowOk(Land(db, RunBody(w)), id)
  {
    FoldSnoc(Run, db.runs0, db.runWrites, w);
    if id !in db.deletedRuns {
      UpsertIsLocal(Run, db.runs, Fold(Run, db.runs0, db.runWrites), w, id);
    }
  }

  ghost predicate BodyAccepted(accepted: seq<OrderedEvent>, b: Body) {
    exists e :: e in accepted && e.body == b
  }

  /** Every handled write came from an accepted event. */
  ghost predicate WritesOk(accepted: seq<OrderedEvent>, db: Store) {
    && (forall w :: w in db.jobWrites ==> BodyAccepted(accepted, JobBody(w)))
    && (forall w :: w in db.runWrites ==> BodyAccepted(accepted, RunBody(w)))
  }

  lemma BodyAcceptedKept(accepted: seq<OrderedEvent>, accepted': seq<OrderedEvent>)
    requires accepted <= accepted'
    ensures forall b :: BodyAccepted(accepted, b) ==> BodyAccepted(accepted', b)
  {
    forall b | BodyAccepted(accepted, b) ensures BodyAccepted(accepted', b) {
      var e :| e in accepted && e.body == b;
      assert e in accepted';
    }
  }

  lemma LandedWasAccepted(s: State, step: Step)
    requires Conserved(s.mem) && ColdInv(s)
    ensures Landed(s, step).Some? ==> BodyAccepted(s.mem.accepted, Landed(s, step).value)
  {
    if Landed(s, step).Some? {
      if step.HotApply? {
        HeldWasAccepted(s.mem, s.mem.ipc.event);
      } else {
        assert ColdEventOk(s.mem.accepted, s.db.events, Remaining(s.fpc)[0]);
      }
    }
  }

  lemma WritesStep(c: Config, s: State, step: Step)
    requires WritesOk(s.mem.accepted, s.db) && Enabled(c, s, step)
    requires Conserved(s.mem) && ColdInv(s)
    ensures WritesOk(Do(c, s, step).mem.accepted, Do(c, s, step).db)
  {
    var s' := Do(c, s, step);
    TypedTablesChange(c, s, step);
    LandedWasAccepted(s, step);
    AcceptedGrows(c, s, step);
    BodyAcceptedKept(s.mem.accepted, s'.mem.accepted);
    if Landed(s, step).Some? {
      LandWrites(s.db, Landed(s, step).value);
    }
    forall w | w in s'.db.jobWrites ensures BodyAccepted(s'.mem.accepted, JobBody(w)) {
      assert w in Typed(s'.db).jobWrites;
    }
    forall w | w in s'.db.runWrites ensures BodyAccepted(s'.mem.accepted, RunBody(w)) {
      assert w in Typed(s'.db).runWrites;
    }
  }

  lemma LandWrites(db: Store, b: Body)
    ensures forall w :: w in Land(db, b).jobWrites <==> w in db.jobWrites || b == JobBody(w)
    ensures forall w :: w in Land(db, b).runWrites <==> w in db.runWrites || b == RunBody(w)
  {
  }

  // ---- at-least-once --------------------------------------------------------------

  /** The body's write has been handed to its typed table. */
  predicate Applied(db: Store, b: Body) {
    match b
    case JobBody(w) => w in db.jobWrites
    case RunBody(w) => w in db.runWrites
    case OtherBody(_) => false
  }

  /** A delivery ID fixes its event: redeliveries carry the same payload. */
  ghost predicate Consistent(accepted: seq<OrderedEvent>) {
    forall e, e' :: e in accepted && e' in accepted && e.deliveryId == e'.deliveryId ==> e.body == e'.body
  }

  predicate Unprocessed(t: Events, d: string) {
    d in t && t[d].status != Processed
  }

  /** A spilled event is applied, or its row is still there to be replayed or to be seen failed. */
  predicate Covered(db: Store, e: OrderedEvent) {
    Applied(db, e.body) || Unprocessed(db.events, e.deliveryId)
  }

  ghost predicate CoverInv(s: State) {
    && (forall e :: e in s.mem.hot ==> Applied(s.db, e.body))
    && (s.fpc.FMark? && s.fpc.handled ==> Applied(s.db, s.fpc.event.body))
    && (Consistent(s.mem.accepted) ==> forall e :: e in s.mem.stored ==> Covered(s.db, e))
  }

  lemma AppliedKept(c: Config, s: State, step: Step)
    requires Enabled(c, s, step)
    ensures forall b :: Applied(s.db, b) ==> Applied(Do(c, s, step).db, b)
    ensures Landed(s, step).Some? && Registered(Landed(s, step).value) ==>
              Applied(Do(c, s, step).db, Landed(s, step).value)
  {
    TypedTablesChange(c, s, step);
    var db' := Do(c, s, step).db;
    if Landed(s, step).Some? {
      LandWrites(s.db, Landed(s, step).value);
    }
    forall b ensures Applied(db', b) <==> Applied(Typed(db'), b) {
    }
  }

  lemma HotStep(c: Config, s: State, step: Step)
    requires Enabled(c, s, step)
    requires forall e :: e in s.mem.hot ==> Applied(s.db, e.body)
    ensures forall e :: e in Do(c, s, step).mem.hot ==> Applied(Do(c, s, step).db, e.body)
  {
    AppliedKept(c, s, step);
    var m' := Do(c, s, step).mem;
    assert m'.hot == s.mem.hot ||
           (step.HotApply? && step.outcome.Handled? && Registered(s.mem.ipc.event.body)
            && m'.hot == s.mem.hot + multiset{s.mem.ipc.event});
  }

  lemma HandledStep(c: Config, s: State, step: Step)
    requires Enabled(c, s, step)
    requires s.fpc.FMark? && s.fpc.handled ==> Applied(s.db, s.fpc.event.body)
    ensures var s' := Do(c, s, step);
            s'.fpc.FMark? && s'.fpc.handled ==> Applied(s'.db, s'.fpc.event.body)
  {
    AppliedKept(c, s, step);
    var fpc' := Do(c, s, step).fpc;
    if fpc'.FMark? && fpc' != s.fpc {
      assert step.ColdApply? && fpc'.event == s.fpc.rest[0];
    }
  }

  /** Rows leave the unprocessed state only by being marked processed. */
  lemma UnprocessedKept(c: Config, s: State, step: Step, d: string)
    requires Enabled(c, s, step) && BuffersOk(s.mem) && Conserved(s.mem) && RowsOk(s.db.events)
    requires Unprocessed(s.db.events, d)
    requires MarksRow(s.fpc, step) && s.fpc.handled ==> s.fpc.event.deliveryId != d
    ensures Unprocessed(Do(c, s, step).db.events, d)
  {
    EventTableChanges(c, s, step);
    StoreAllRows(s.db.events, s.mem.spill);
  }

  lemma StoredBy(c: Config, s: State, step: Step, e: OrderedEvent)
    requires Enabled(c, s, step) && e in Do(c, s, step).mem.stored
    ensures e in s.mem.stored || (e in s.mem.spill && StoresSpill(c, s.mem, step))
  {
  }

  lemma CoverStep(c: Config, s: State, step: Step, e: OrderedEvent)
    requires Enabled(c, s, step) && BuffersOk(s.mem) && Conserved(s.mem) && RowsOk(s.db.events)
    requires CoverInv(s) && ColdInv(s)
    requires Consistent(s.mem.accepted) && e in Do(c, s, step).mem.stored
    ensures Covered(Do(c, s, step).db, e)
  {
    AppliedKept(c, s, step);
    StoredBy(c, s, step, e);
    if e !in s.mem.stored {
      EventTableChanges(c, s, step);
      SpillRows(s.mem, s.db.events);
      assert PendingRow(Do(c, s, step).db.events, e.deliveryId);
    } else if !Applied(s.db, e.body) {
      assert Covered(s.db, e);
      if MarksRow(s.fpc, step) && s.fpc.handled {
        HeldWasAccepted(s.mem, e);
        assert ColdEventOk(s.mem.accepted, s.db.events, Remaining(s.fpc)[0]);
      }
      UnprocessedKept(c, s, step, e.deliveryId);
    }
  }

  lemma CoverInvStep(c: Config, s: State, step: Step)
    requires Enabled(c, s, step) && BuffersOk(s.mem) && Conserved(s.mem) && RowsOk(s.db.events)
    requires CoverInv(s) && ColdInv(s)
    ensures CoverInv(Do(c, s, step))
  {
    HotStep(c, s, step);
    HandledStep(c, s, step);
    AcceptedGrows(c, s, step);
    if Consistent(Do(c, s, step).mem.accepted) {
      assert Consistent(s.mem.accepted);
      forall e | e in Do(c, s, step).mem.stored ensures Covered(Do(c, s, step).db, e) {
        CoverStep(c, s, step, e);
      }
    }
  }

  // ---- shutdown -------------------------------------------------------------------

  /** Past the last empty poll, or finished. */
  predicate Polled(m: Memory) {
    m.ipc.IFinal? || m.ipc.IDone?
  }

  /** The flush worker is in, or past, its final flush. */
  predicate FinalPhase(fpc: FlushPc) {
    match fpc
    case FAll | FDone => true
    case FBatch(round, _) => round.All?
    case FMark(round, _, _, _) => round.All?
    case _ => false
  }

  /** A page of the final flush that was not full, so held every pending row. */
  predicate LastPage(fpc: FlushPc) {
    match fpc
    case FBatch(round, _) => round.All? && round.size < FLUSH_PAGE
    case FMark(round, _, _, _) => round.All? && round.size < FLUSH_PAGE
    case _ => false
  }

  /** What the channel holds after the last poll is exactly what was accepted after it. */
  predicate TailOk(m: Memory) {
    Polled(m) ==> m.polledAt <= |m.accepted| && m.ch == m.accepted[m.polledAt..]
  }

  /** The final flush runs only after the ingest worker has finished, and both only after Stop. */
  predicate OrderOk(s: State) {
    && (FinalPhase(s.fpc) ==> s.mem.ipc.IDone?)
    && (FinalPhase(s.fpc) || s.fpc.FWait? || Polled(s.mem) || s.mem.ipc.IDrain? ==> s.cancelled)
    && ((s.mem.ipc.IBusy? || s.mem.ipc.ICheck?) && s.mem.ipc.draining ==> s.cancelled)
  }

  ghost predicate AllPendingIn(t: Events, rest: seq<OrderedEvent>) {
    forall d :: PendingRow(t, d) ==> Holds(rest, d)
  }

  /** Unless it met a fault, the final flush's last page covers the pending rows that are left,
      and it ends with none. */
  ghost predicate DrainOk(s: State) {
    !s.finalFault ==>
      && (LastPage(s.fpc) ==> AllPendingIn(s.db.events, Remaining(s.fpc)))
      && (s.fpc.FDone? ==> forall d :: !PendingRow(s.db.events, d))
  }

  lemma TailStep(c: Config, s: State, step: Step)
    requires TailOk(s.mem) && Enabled(c, s, step)
    ensures TailOk(Do(c, s, step).mem)
  {
    if step.Enqueue? && Polled(s.mem) {
      assert (s.mem.accepted + [step.event])[s.mem.polledAt..] == s.mem.accepted[s.mem.polledAt..] + [step.event];
    }
  }

  lemma OrderStep(c: Config, s: State, step: Step)
    requires OrderOk(s) && Enabled(c, s, step)
    ensures OrderOk(Do(c, s, step))
  {
    FinalPhaseEntry(c, s, step);
  }

  lemma FinalPhaseEntry(c: Config, s: State, step: Step)
    requires Enabled(c, s, step)
    ensures FinalPhase(Do(c, s, step).fpc) ==> FinalPhase(s.fpc) || (step.AwaitIngest? && s.mem.ipc.IDone?)
    ensures s.mem.ipc.IDone? ==> Do(c, s, step).mem.ipc.IDone?
    ensures Do(c, s, step).fpc.FWait? ==> s.fpc.FWait? || s.cancelled
  {
  }

  /** While the ingest worker is finished, pending rows only disappear. */
  lemma PendingShrinks(c: Config, s: State, step: Step, d: string)
    requires Enabled(c, s, step) && s.mem.ipc.IDone?
    requires PendingRow(Do(c, s, step).db.events, d)
    ensures PendingRow(s.db.events, d)
    ensures step.ColdMark? && step.mark.Ok? ==> s.fpc.event.deliveryId != d
  {
    EventTableChanges(c, s, step);
  }

  lemma DrainStep(c: Config, s: State, step: Step)
    requires Enabled(c, s, step) && DrainOk(s) && OrderOk(s)
    requires RowsOk(s.db.events) && RowsHaveOrigin(s.mem.accepted, s.db.events) && ColdInv(s)
    ensures DrainOk(Do(c, s, step))
  {
    var s' := Do(c, s, step);
    if !s'.finalFault && (LastPage(s'.fpc) || s'.fpc.FDone?) {
      FinalPhaseEntry(c, s, step);
      LastPageEntry(c, s, step);
      assert s.mem.ipc.IDone?;
      if step.FetchAll? {
        FetchIsCold(s.mem.accepted, s.db.events, PendingIds(s.db.events), FLUSH_PAGE, step.batch);
      } else {
        RemainingWhileCold(c, s, step);
      }
      forall d | PendingRow(s'.db.events, d)
        ensures !s'.fpc.FDone? && Holds(Remaining(s'.fpc), d)
      {
        DrainedRow(c, s, step, d);
      }
    }
  }

  lemma LastPageEntry(c: Config, s: State, step: Step)
    requires Enabled(c, s, step)
    ensures LastPage(Do(c, s, step).fpc) && !step.FetchAll? ==> LastPage(s.fpc)
    ensures Do(c, s, step).fpc.FDone? && !step.FetchAll? && !step.AllAbort? ==>
              s.fpc.FDone? || (LastPage(s.fpc) && Remaining(s.fpc) == [])
  {
  }

  lemma DrainedRow(c: Config, s: State, step: Step, d: string)
    requires Enabled(c, s, step) && DrainOk(s) && ColdInv(s) && s.mem.ipc.IDone?
    requires !Do(c, s, step).finalFault && PendingRow(Do(c, s, step).db.events, d)
    requires LastPage(Do(c, s, step).fpc) || Do(c, s, step).fpc.FDone?
    requires step.FetchAll? ==>
               |step.batch| < FLUSH_PAGE ==> forall d :: d in PendingIds(s.db.events) ==> Holds(step.batch, d)
    ensures !Do(c, s, step).fpc.FDone? && Holds(Remaining(Do(c, s, step).fpc), d)
  {
    PendingShrinks(c, s, step, d);
    LastPageEntry(c, s, step);
    if step.FetchAll? {
      assert d in PendingIds(s.db.events);
    } else {
      RemainingWhileCold(c, s, step);
      var rest, rest' := Remaining(s.fpc), Remaining(Do(c, s, step).fpc);
      assert Holds(rest, d);
      var i :| 0 <= i < |rest| && rest[i].deliveryId == d;
      if step.ColdMark? {
        assert rest[0] == s.fpc.event && i > 0;
        assert rest'[i - 1] == rest[i];
      }
    }
  }
}
