/** The webhook ingest pipeline as a state machine: HTTP handlers that enqueue, the ingest
    worker, the flush worker, shutdown, and the cleanup service, interleaved at the points
    where they touch shared state (internal/services/event_ordering_service.go).
    Timers, deadlines and failing calls are nondeterministic choices. */
module Pipeline {
  import opened Base
  import opened Status
  import opened Lifecycle
  import opened Records
  import opened EventTable
  import opened Database

  /** flushAll's page size and flushReadyEvents' iteration ceiling. */
  const FLUSH_PAGE: nat := 1000
  const MAX_DRAIN_ITERATIONS: nat := 20

  datatype Config = Config(capacity: nat, ingestBatchSize: nat, batchSize: nat)

  /** Where the ingest worker is: in its main select, running processFunc, about to test the
      spill buffer's length, in the shutdown drain, past its last empty poll, or finished. */
  datatype IngestPc =
    | ISelect
    | IBusy(event: OrderedEvent, draining: bool)
    | ICheck(draining: bool)
    | IDrain
    | IFinal
    | IDone

  /** One fetched page: of a ready flush (with its iteration number) or of the final flush. */
  datatype Round = Ready(iteration: nat, size: nat) | All(size: nat)

  /** Where the flush worker is. FMark holds the event just handled, before its row is marked. */
  datatype FlushPc =
    | FSelect
    | FReady(iteration: nat)
    | FBatch(round: Round, rest: seq<OrderedEvent>)
    | FMark(round: Round, event: OrderedEvent, handled: bool, rest: seq<OrderedEvent>)
    | FWait
    | FAll
    | FDone

  /** The in-memory side: the channel, the spill buffer and the ingest worker, with a ledger of
      where every accepted event went. `accepted` lists them in order, beginning with the rows
      an earlier process left pending; `polledAt` is its length at the drain's last empty poll. */
  datatype Memory = Memory(
    ch: seq<OrderedEvent>, spill: seq<OrderedEvent>, ipc: IngestPc,
    accepted: seq<OrderedEvent>,
    stored: multiset<OrderedEvent>, hot: multiset<OrderedEvent>,
    permanent: multiset<OrderedEvent>, spillFailed: multiset<OrderedEvent>,
    polledAt: nat)

  /** The database side: the three tables, the typed tables as they were at the start, the
      writes handled since, in order, and the IDs whose row a stale sweep has marked or the
      retention delete has removed. */
  datatype Store = Store(
    events: Events, jobs: JobTable, runs: RunTable,
    jobs0: JobTable, runs0: RunTable, jobWrites: seq<JobWrite>, runWrites: seq<RunWrite>,
    sweptJobs: set<int>, deletedJobs: set<int>, deletedRuns: set<int>)

  /** An event the flush worker handed to its handler, with how that went. */
  datatype Replay = Replay(event: OrderedEvent, outcome: Outcome)

  /** `finalFault`: the final flush met a failing fetch or mark, or its deadline. `replayed`
      lists what the cold path has handled, in order. */
  datatype State = State(
    mem: Memory, db: Store, fpc: FlushPc, cancelled: bool, finalFault: bool, replayed: seq<Replay>)

  /** A handler call: no error, or an error with the write absent or already durable. */
  datatype Outcome = Handled | FailedClean | FailedDurable

  /** A store or mark: no error, or an error with the effect absent or already durable. */
  datatype Result = Ok | Lost | Durable

  datatype Step =
    | Enqueue(event: OrderedEvent)
    | Cancel
    | Recv
    | HotApply(outcome: Outcome)
    | SpillCheck(store: Result)
    | Tick(store: Result)
    | SeeCancel
    | PollEmpty
    | FinalSpill(store: Result)
    | FlushTick
    | FetchReady(cutoff: int, batch: seq<OrderedEvent>)
    | ReadyStop
    | ColdApply(outcome: Outcome)
    | ColdMark(now: int, mark: Result)
    | RoundEnd(late: bool)
    | FlushSeeCancel
    | AwaitIngest
    | FetchAll(batch: seq<OrderedEvent>)
    | AllAbort
    | StaleSweep(cutoff: int, now: int)
    | Retain(cutoff: int)

  /** An event as Ingest builds it. */
  predicate Fresh(e: OrderedEvent) {
    !e.persisted && e.processedAt.None?
  }

  /** A store through the service context fails once that context is cancelled. */
  predicate StoreAllowed(cancelled: bool, draining: bool, o: Result) {
    cancelled && !draining ==> o.Lost?
  }

  /** Only a write can fail: an unknown action is answered without touching the database. */
  predicate OutcomeAllowed(b: Body, o: Outcome) {
    o.Handled? || KnownAction(b)
  }

  ghost predicate Enabled(c: Config, s: State, step: Step) {
    match step
    case Enqueue(e) => |s.mem.ch| < c.capacity && Fresh(e)
    case Cancel => true
    case Recv => (s.mem.ipc.ISelect? || s.mem.ipc.IDrain?) && s.mem.ch != []
    case HotApply(o) => s.mem.ipc.IBusy? && OutcomeAllowed(s.mem.ipc.event.body, o)
    case SpillCheck(o) => s.mem.ipc.ICheck? && StoreAllowed(s.cancelled, s.mem.ipc.draining, o)
    case Tick(o) => s.mem.ipc.ISelect? && StoreAllowed(s.cancelled, false, o)
    case SeeCancel => s.mem.ipc.ISelect? && s.cancelled
    case PollEmpty => s.mem.ipc.IDrain? && s.mem.ch == []
    case FinalSpill(o) => s.mem.ipc.IFinal?
    case FlushTick => s.fpc.FSelect?
    case FetchReady(cutoff, batch) =>
      && s.fpc.FReady? && s.fpc.iteration < MAX_DRAIN_ITERATIONS && !s.cancelled
      && IsFetch(s.db.events, ReadyIds(s.db.events, cutoff), c.batchSize, batch)
    case ReadyStop => s.fpc.FReady?
    case ColdApply(o) => s.fpc.FBatch? && s.fpc.rest != [] && OutcomeAllowed(s.fpc.rest[0].body, o)
    case ColdMark(now, o) => s.fpc.FMark?
    case RoundEnd(late) => s.fpc.FBatch? && s.fpc.rest == []
    case FlushSeeCancel => s.fpc.FSelect? && s.cancelled
    case AwaitIngest => s.fpc.FWait? && s.mem.ipc.IDone?
    case FetchAll(batch) => s.fpc.FAll? && IsFetch(s.db.events, PendingIds(s.db.events), FLUSH_PAGE, batch)
    case AllAbort => s.fpc.FAll?
    case StaleSweep(_, _) => true
    case Retain(_) => true
  }

  // ---- the in-memory side ---------------------------------------------------------

  /** flushSpill: the buffer is emptied whether or not the store succeeded. */
  function SpillFlushed(m: Memory, o: Result): Memory {
    if o.Ok? then m.(spill := [], stored := m.stored + multiset(m.spill))
    else m.(spill := [], spillFailed := m.spillFailed + multiset(m.spill))
  }

  /** process: an event is handled, dropped as permanent, or appended to the spill buffer. */
  function AfterProcess(m: Memory, e: OrderedEvent, o: Outcome): Memory {
    if !Registered(e.body) then m.(permanent := m.permanent + multiset{e})
    else if o.Handled? then m.(hot := m.hot + multiset{e})
    else m.(spill := m.spill + [e])
  }

  predicate SpillDue(c: Config, m: Memory) {
    |m.spill| >= c.ingestBatchSize
  }

  function MemoryAfter(c: Config, m: Memory, step: Step): Memory {
    match step
    case Enqueue(e) => m.(ch := m.ch + [e], accepted := m.accepted + [e])
    case Recv => if m.ch == [] then m else m.(ch := m.ch[1..], ipc := IBusy(m.ch[0], m.ipc.IDrain?))
    case HotApply(o) =>
      if m.ipc.IBusy? then AfterProcess(m, m.ipc.event, o).(ipc := ICheck(m.ipc.draining)) else m
    case SpillCheck(o) =>
      var m' := if SpillDue(c, m) then SpillFlushed(m, o) else m;
      m'.(ipc := if m.ipc.ICheck? && m.ipc.draining then IDrain else ISelect)
    case Tick(o) => SpillFlushed(m, o)
    case SeeCancel => m.(ipc := IDrain)
    case PollEmpty => m.(ipc := IFinal, polledAt := |m.accepted|)
    case FinalSpill(o) => SpillFlushed(m, o).(ipc := IDone)
    case _ => m
  }

  // ---- the database side ----------------------------------------------------------

  /** The typed-table write of a handler call. */
  function Land(db: Store, b: Body): Store {
    match b
    case JobBody(w) => db.(jobs := Upsert(Job, db.jobs, w), jobWrites := db.jobWrites + [w])
    case RunBody(w) => db.(runs := Upsert(Run, db.runs, w), runWrites := db.runWrites + [w])
    case OtherBody(_) => db
  }

  function Attempted(db: Store, b: Body, o: Outcome): Store {
    if o.FailedClean? then db else Land(db, b)
  }

  function SpillStored(db: Store, es: seq<OrderedEvent>, o: Result): Store {
    if o.Lost? then db else db.(events := StoreAll(db.events, es))
  }

  function Marked(t: Events, d: string, handled: bool, now: int): Events {
    if handled then SetProcessed(t, d, now) else SetFailed(t, d)
  }

  function StoreAfter(c: Config, m: Memory, fpc: FlushPc, db: Store, step: Step): Store {
    match step
    case HotApply(o) => if m.ipc.IBusy? then Attempted(db, m.ipc.event.body, o) else db
    case SpillCheck(o) => if SpillDue(c, m) then SpillStored(db, m.spill, o) else db
    case Tick(o) => SpillStored(db, m.spill, o)
    case FinalSpill(o) => SpillStored(db, m.spill, o)
    case ColdApply(o) => if fpc.FBatch? && fpc.rest != [] then Attempted(db, fpc.rest[0].body, o) else db
    case ColdMark(now, o) =>
      if fpc.FMark? && !o.Lost?
      then db.(events := Marked(db.events, fpc.event.deliveryId, fpc.handled, now)) else db
    case StaleSweep(cutoff, now) =>
      db.(jobs := SweepJobs(db.jobs, cutoff, now), sweptJobs := db.sweptJobs + SweptIds(db.jobs, cutoff))
    case Retain(cutoff) =>
      var jobs', runs' := DeleteOlder(db.jobs, cutoff), DeleteOlder(db.runs, cutoff);
      db.(jobs := jobs', runs := runs', events := Expire(db.events, cutoff),
          deletedJobs := db.deletedJobs + (db.jobs.Keys - jobs'.Keys),
          deletedRuns := db.deletedRuns + (db.runs.Keys - runs'.Keys))
    case _ => db
  }

  // ---- the flush worker -----------------------------------------------------------

  function AfterRound(c: Config, round: Round, late: bool): FlushPc {
    match round
    case Ready(i, size) => if size < c.batchSize || late then FSelect else FReady(i + 1)
    case All(size) => if size < FLUSH_PAGE then FDone else FAll
  }

  function FlushAfter(c: Config, fpc: FlushPc, step: Step): FlushPc {
    match step
    case FlushTick => FReady(0)
    case FetchReady(_, batch) =>
      if batch == [] || !fpc.FReady? then FSelect else FBatch(Ready(fpc.iteration, |batch|), batch)
    case ReadyStop => FSelect
    case ColdApply(o) =>
      if !fpc.FBatch? || fpc.rest == [] then fpc
      else if !Registered(fpc.rest[0].body) then FBatch(fpc.round, fpc.rest[1..])
      else FMark(fpc.round, fpc.rest[0], o.Handled?, fpc.rest[1..])
    case ColdMark(_, _) => if fpc.FMark? then FBatch(fpc.round, fpc.rest) else fpc
    case RoundEnd(late) => if fpc.FBatch? then AfterRound(c, fpc.round, late) else fpc
    case FlushSeeCancel => FWait
    case AwaitIngest => FAll
    case FetchAll(batch) => if batch == [] then FDone else FBatch(All(|batch|), batch)
    case AllAbort => FDone
    case _ => fpc
  }

  predicate FinalFault(fpc: FlushPc, step: Step) {
    step.AllAbort? || (step.ColdMark? && !step.mark.Ok? && fpc.FMark? && fpc.round.All?)
  }

  function ReplayedAfter(fpc: FlushPc, replayed: seq<Replay>, step: Step): seq<Replay> {
    if step.ColdApply? && fpc.FBatch? && fpc.rest != []
    then replayed + [Replay(fpc.rest[0], step.outcome)] else replayed
  }

  /** The state after an enabled step. */
  function Do(c: Config, s: State, step: Step): State {
    State(MemoryAfter(c, s.mem, step), StoreAfter(c, s.mem, s.fpc, s.db, step),
          FlushAfter(c, s.fpc, step), s.cancelled || step.Cancel?, s.finalFault || FinalFault(s.fpc, step),
          ReplayedAfter(s.fpc, s.replayed, step))
  }

  ghost predicate Next(c: Config, s: State, s': State) {
    exists step :: Enabled(c, s, step) && s' == Do(c, s, step)
  }

  /** A freshly started service over whatever an earlier process left in the database. */
  ghost predicate Init(s: State) {
    && s.fpc.FSelect? && !s.cancelled && !s.finalFault && s.replayed == []
    && s.mem == Memory([], [], ISelect, s.mem.accepted,
                       multiset(s.mem.accepted), multiset{}, multiset{}, multiset{}, 0)
    && s.db == Store(s.db.events, s.db.jobs, s.db.runs, s.db.jobs, s.db.runs, [], [], {}, {}, {})
    && RowsOk(s.db.events) && TableKnown(Job, s.db.jobs) && TableKnown(Run, s.db.runs)
    && (forall d :: d in PendingIds(s.db.events) ==> EventOf(d, s.db.events[d]) in s.mem.accepted)
    && (forall e :: e in s.mem.accepted ==>
          && e.deliveryId in PendingIds(s.db.events)
          && e == EventOf(e.deliveryId, s.db.events[e.deliveryId]))
  }

  /** Any interleaving of steps from a fresh start; the last state is an arbitrary reachable one. */
  ghost predicate IsRun(c: Config, run: seq<State>) {
    && run != [] && Init(run[0])
    && forall i :: 0 <= i < |run| - 1 ==> Next(c, run[i], run[i + 1])
  }

  function Last(run: seq<State>): State
    requires run != []
  {
    run[|run| - 1]
  }
}
