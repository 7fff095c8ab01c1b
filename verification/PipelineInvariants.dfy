/** What every step of the ingest pipeline keeps: one invariant per concern, each with the
    lemma that an enabled step preserves it. */
module PipelineInvariants {
  import opened Records
  import opened EventTable
  import opened Database
  import opened Pipeline

  // ---- where occurrences are ------------------------------------------------------

  function InFlight(m: Memory): multiset<OrderedEvent> {
    if m.ipc.IBusy? then multiset{m.ipc.event} else multiset{}
  }

  /** Out of memory: stored by a spill, handled hot, permanently dropped, lost by a spill. */
  function Gone(m: Memory): multiset<OrderedEvent> {
    m.stored + m.hot + m.permanent + m.spillFailed
  }

  /** Each accepted occurrence is in exactly one of: the channel, the ingest worker's hands, the
      spill buffer, gone. */
  predicate Conserved(m: Memory) {
    multiset(m.accepted) == multiset(m.ch) + InFlight(m) + multiset(m.spill) + Gone(m)
  }

  lemma ConservedStep(c: Config, s: State, step: Step)
    requires Conserved(s.mem) && Enabled(c, s, step)
    ensures Conserved(Do(c, s, step).mem)
  {
    match step {
      case Enqueue(_) => ConservedQueue(c, s.mem, step);
      case Recv => ConservedQueue(c, s.mem, step);
      case HotApply(_) => ConservedHot(c, s.mem, step);
      case SpillCheck(_) => ConservedFlush(c, s.mem, step);
      case Tick(_) => ConservedFlush(c, s.mem, step);
      case FinalSpill(_) => ConservedFlush(c, s.mem, step);
      case SeeCancel => assert MemoryAfter(c, s.mem, step) == s.mem.(ipc := IDrain);
      case PollEmpty =>
      case _ => assert MemoryAfter(c, s.mem, step) == s.mem;
    }
  }

  lemma ConservedQueue(c: Config, m: Memory, step: Step)
    requires Conserved(m) && (step.Enqueue? || (step.Recv? && !m.ipc.IBusy? && m.ch != []))
    ensures Conserved(MemoryAfter(c, m, step))
  {
    var m' := MemoryAfter(c, m, step);
    assert Gone(m') == Gone(m) && m'.spill == m.spill;
    if step.Recv? {
      assert m.ch == [m.ch[0]] + m.ch[1..];
    } else {
      assert multiset(m'.ch) == multiset(m.ch) + multiset{step.event};
      assert multiset(m'.accepted) == multiset(m.accepted) + multiset{step.event};
    }
  }

  lemma ConservedFlush(c: Config, m: Memory, step: Step)
    requires Conserved(m) && !m.ipc.IBusy? && (step.SpillCheck? || step.Tick? || step.FinalSpill?)
    ensures Conserved(MemoryAfter(c, m, step))
  {
    var o := step.store;
    ConservedSpill(m, o);
    var m' := if step.SpillCheck? && !SpillDue(c, m) then m else SpillFlushed(m, o);
    assert MemoryAfter(c, m, step) == m'.(ipc := MemoryAfter(c, m, step).ipc);
    assert InFlight(MemoryAfter(c, m, step)) == InFlight(m');
  }

  lemma ConservedSpill(m: Memory, o: Result)
    requires Conserved(m)
    ensures Conserved(SpillFlushed(m, o))
  {
  }

  lemma ConservedHot(c: Config, m: Memory, step: Step)
    requires Conserved(m) && m.ipc.IBusy? && step.HotApply?
    ensures Conserved(MemoryAfter(c, m, step))
  {
    var m', e := MemoryAfter(c, m, step), m.ipc.event;
    assert m'.ch == m.ch && m'.accepted == m.accepted && InFlight(m') == multiset{};
    assert multiset(m.spill + [e]) == multiset(m.spill) + multiset{e};
    assert multiset(m'.spill) + Gone(m') == multiset(m.spill) + Gone(m) + multiset{e};
  }

  /** The channel respects its capacity; the spill buffer is below the batch size whenever the
      ingest worker is between loop iterations, and gone once it has finished. */
  predicate Bounded(c: Config, m: Memory) {
    && |m.ch| <= c.capacity
    && (m.ipc.ICheck? ==> |m.spill| <= c.ingestBatchSize || |m.spill| <= 1)
    && (!m.ipc.ICheck? ==> |m.spill| < c.ingestBatchSize || m.spill == [])
    && (m.ipc.IDone? ==> m.spill == [])
  }

  lemma BoundedStep(c: Config, s: State, step: Step)
    requires Bounded(c, s.mem) && Enabled(c, s, step)
    ensures Bounded(c, Do(c, s, step).mem)
  {
  }

  // ---- what the buffers hold ------------------------------------------------------

  /** In-memory events are as Ingest built them; only events of a registered type are ever
      spilled, and only those of an unregistered type are ever dropped as permanent. */
  predicate BuffersOk(m: Memory) {
    && (forall e :: e in m.ch ==> Fresh(e))
    && (m.ipc.IBusy? ==> Fresh(m.ipc.event))
    && (forall e :: e in m.spill ==> Fresh(e) && Registered(e.body))
    && (forall e :: e in m.permanent ==> !Registered(e.body))
  }

  lemma BuffersStep(c: Config, s: State, step: Step)
    requires BuffersOk(s.mem) && Enabled(c, s, step)
    ensures BuffersOk(Do(c, s, step).mem)
  {
  }

  /** Everything in the buffers and the ledger was accepted. */
  lemma HeldWasAccepted(m: Memory, e: OrderedEvent)
    requires Conserved(m)
    requires || e in m.ch || e in InFlight(m) || e in m.spill
             || e in m.stored || e in m.hot || e in m.permanent || e in m.spillFailed
    ensures e in m.accepted
  {
    assert e in multiset(m.accepted);
  }

  // ---- the cold batch -------------------------------------------------------------

  /** The events of the current page whose rows are still to be marked. */
  function Remaining(fpc: FlushPc): seq<OrderedEvent> {
    match fpc
    case FBatch(_, rest) => rest
    case FMark(_, e, _, rest) => [e] + rest
    case _ => []
  }

  /** Some accepted event has this delivery ID and this body. */
  ghost predicate Origin(accepted: seq<OrderedEvent>, d: string, b: Body) {
    exists e :: e in accepted && e.deliveryId == d && e.body == b
  }

  predicate PendingRow(t: Events, d: string) {
    d in t && t[d].status == Pending
  }

  ghost predicate ColdEventOk(accepted: seq<OrderedEvent>, t: Events, e: OrderedEvent) {
    && e.persisted && Registered(e.body) && PendingRow(t, e.deliveryId)
    && Origin(accepted, e.deliveryId, e.body)
  }

  /** While a page is being replayed, each event still in it has a pending row of its own, even
      though spills of the same deliveries may overwrite those rows meanwhile. */
  ghost predicate ColdOk(accepted: seq<OrderedEvent>, t: Events, rest: seq<OrderedEvent>) {
    && (forall i :: 0 <= i < |rest| ==> ColdEventOk(accepted, t, rest[i]))
    && (forall i, j :: 0 <= i < j < |rest| ==> rest[i].deliveryId != rest[j].deliveryId)
  }

  ghost predicate ColdInv(s: State) {
    ColdOk(s.mem.accepted, s.db.events, Remaining(s.fpc))
  }

  /** The row is exactly what storing some accepted event wrote. */
  ghost predicate RowOrigin(accepted: seq<OrderedEvent>, d: string, row: EventRow) {
    exists e :: e in accepted && e.deliveryId == d && RowOf(e) == row
  }

  /** Every pending row is the row of an accepted event. */
  ghost predicate RowsHaveOrigin(accepted: seq<OrderedEvent>, t: Events) {
    forall d :: PendingRow(t, d) ==> RowOrigin(accepted, d, t[d])
  }

  lemma OriginKept(accepted: seq<OrderedEvent>, accepted': seq<OrderedEvent>)
    requires accepted <= accepted'
    ensures forall d, b :: Origin(accepted, d, b) ==> Origin(accepted', d, b)
    ensures forall d, row :: RowOrigin(accepted, d, row) ==> RowOrigin(accepted', d, row)
  {
    assert forall x :: x in accepted ==> x in accepted';
    forall d, b | Origin(accepted, d, b) ensures Origin(accepted', d, b) {
      var x :| x in accepted && x.deliveryId == d && x.body == b;
      assert x in accepted';
    }
  }

  lemma AcceptedGrows(c: Config, s: State, step: Step)
    ensures s.mem.accepted <= Do(c, s, step).mem.accepted
  {
  }

  /** The three ways the event table changes. */
  predicate StoresSpill(c: Config, m: Memory, step: Step) {
    match step
    case SpillCheck(o) => SpillDue(c, m) && !o.Lost?
    case Tick(o) => !o.Lost?
    case FinalSpill(o) => !o.Lost?
    case _ => false
  }

  predicate MarksRow(fpc: FlushPc, step: Step) {
    step.ColdMark? && fpc.FMark? && !step.mark.Lost?
  }

  lemma EventTableChanges(c: Config, s: State, step: Step)
    requires Enabled(c, s, step)
    ensures Do(c, s, step).db.events ==
            if StoresSpill(c, s.mem, step) then StoreAll(s.db.events, s.mem.spill)
            else if MarksRow(s.fpc, step)
              then Marked(s.db.events, s.fpc.event.deliveryId, s.fpc.handled, step.now)
            else if step.Retain? then Expire(s.db.events, step.cutoff)
            else s.db.events
  {
    StoreEvents(c, s.mem, s.fpc, s.db, step);
  }

  lemma StoreEvents(c: Config, m: Memory, fpc: FlushPc, db: Store, step: Step)
    ensures StoreAfter(c, m, fpc, db, step).events ==
            if StoresSpill(c, m, step) then StoreAll(db.events, m.spill)
            else if MarksRow(fpc, step) then Marked(db.events, fpc.event.deliveryId, fpc.handled, step.now)
            else if step.Retain? then Expire(db.events, step.cutoff)
            else db.events
  {
  }

  /** The rows after a spill: a spilled delivery's row is pending and carries a spilled body. */
  lemma SpillRows(m: Memory, t: Events)
    requires BuffersOk(m) && Conserved(m)
    ensures RowsOk(t) ==> RowsOk(StoreAll(t, m.spill))
    ensures RowsHaveOrigin(m.accepted, t) ==> RowsHaveOrigin(m.accepted, StoreAll(t, m.spill))
    ensures forall d :: PendingRow(t, d) ==> PendingRow(StoreAll(t, m.spill), d)
    ensures forall e :: e in m.spill ==> PendingRow(StoreAll(t, m.spill), e.deliveryId)
  {
    if RowsOk(t) {
      StoreAllKeepsRowsOk(t, m.spill);
    }
    var t' := StoreAll(t, m.spill);
    StoreAllRows(t, m.spill);
    forall d | RowsHaveOrigin(m.accepted, t) && PendingRow(t', d) ensures RowOrigin(m.accepted, d, t'[d])
    {
      if !(d in t && t'[d] == t[d]) {
        var i :| LastOfDelivery(m.spill, i) && m.spill[i].deliveryId == d;
        HeldWasAccepted(m, m.spill[i]);
      }
    }
  }

  lemma RowsStep(c: Config, s: State, step: Step)
    requires Enabled(c, s, step)
    requires RowsOk(s.db.events) && BuffersOk(s.mem) && Conserved(s.mem) && ColdInv(s)
    ensures RowsOk(Do(c, s, step).db.events)
  {
    EventTableChanges(c, s, step);
    SpillRows(s.mem, s.db.events);
    if MarksRow(s.fpc, step) {
      assert ColdEventOk(s.mem.accepted, s.db.events, Remaining(s.fpc)[0]);
    }
  }

  lemma RowsHaveOriginStep(c: Config, s: State, step: Step)
    requires Enabled(c, s, step)
    requires RowsHaveOrigin(s.mem.accepted, s.db.events) && BuffersOk(s.mem) && Conserved(s.mem)
    ensures RowsHaveOrigin(Do(c, s, step).mem.accepted, Do(c, s, step).db.events)
  {
    EventTableChanges(c, s, step);
    SpillRows(s.mem, s.db.events);
    AcceptedGrows(c, s, step);
    OriginKept(s.mem.accepted, Do(c, s, step).mem.accepted);
  }

  lemma FetchIsCold(accepted: seq<OrderedEvent>, t: Events, eligible: set<string>, limit: nat, batch: seq<OrderedEvent>)
    requires RowsOk(t) && RowsHaveOrigin(accepted, t) && eligible <= PendingIds(t)
    requires IsFetch(t, eligible, limit, batch)
    ensures ColdOk(accepted, t, batch)
    ensures |batch| < limit ==> forall d :: d in eligible ==> Holds(batch, d)
  {
    var page :| IsPage(t, eligible, limit, page) && FetchedFrom(t, page, batch);
    forall i | 0 <= i < |batch| ensures ColdEventOk(accepted, t, batch[i]) {
      assert page[i] in PendingIds(t) && RowOrigin(accepted, page[i], t[page[i]]);
    }
    if |batch| < limit {
      forall d | d in eligible ensures Holds(batch, d) {
        var i :| 0 <= i < |page| && page[i] == d;
        assert batch[i].deliveryId == d;
      }
    }
  }

  ghost predicate Holds(batch: seq<OrderedEvent>, d: string) {
    exists i :: 0 <= i < |batch| && batch[i].deliveryId == d
  }

  /** How the part of the page still to be marked evolves. */
  lemma RemainingStep(c: Config, s: State, step: Step)
    requires Enabled(c, s, step)
    requires forall i :: 0 <= i < |Remaining(s.fpc)| ==> Registered(Remaining(s.fpc)[i].body)
    ensures Remaining(Do(c, s, step).fpc) ==
            if step.FetchReady? || step.FetchAll? then step.batch
            else if step.ColdMark? then Remaining(s.fpc)[1..]
            else Remaining(s.fpc)
  {
    if step.ColdApply? {
      assert s.fpc.rest == [s.fpc.rest[0]] + s.fpc.rest[1..];
      assert Remaining(s.fpc)[0] == s.fpc.rest[0];
    }
  }

  /** The pending rows of other deliveries survive every step. */
  lemma PendingKept(c: Config, s: State, step: Step, d: string)
    requires Enabled(c, s, step) && BuffersOk(s.mem) && Conserved(s.mem) && RowsOk(s.db.events)
    requires PendingRow(s.db.events, d)
    requires MarksRow(s.fpc, step) ==> s.fpc.event.deliveryId != d
    ensures PendingRow(Do(c, s, step).db.events, d)
  {
    EventTableChanges(c, s, step);
    SpillRows(s.mem, s.db.events);
  }

  lemma ColdFetch(c: Config, s: State, step: Step)
    requires Enabled(c, s, step) && (step.FetchReady? || step.FetchAll?)
    requires RowsHaveOrigin(s.mem.accepted, s.db.events) && RowsOk(s.db.events)
    ensures ColdOk(s.mem.accepted, s.db.events, step.batch)
  {
    if step.FetchReady? {
      FetchIsCold(s.mem.accepted, s.db.events, ReadyIds(s.db.events, step.cutoff), c.batchSize, step.batch);
    } else {
      FetchIsCold(s.mem.accepted, s.db.events, PendingIds(s.db.events), FLUSH_PAGE, step.batch);
    }
  }

  lemma FetchOnlyMoves(c: Config, s: State, step: Step)
    requires step.FetchReady? || step.FetchAll?
    ensures Do(c, s, step).mem == s.mem && Do(c, s, step).db == s.db
  {
  }

  /** An event of the page that is not the one being marked stays as it should be. */
  lemma ColdEventKept(c: Config, s: State, step: Step, i: nat)
    requires Enabled(c, s, step) && ColdInv(s) && !step.FetchReady? && !step.FetchAll?
    requires BuffersOk(s.mem) && Conserved(s.mem) && RowsOk(s.db.events)
    requires (if step.ColdMark? then 1 else 0) <= i < |Remaining(s.fpc)|
    ensures ColdEventOk(Do(c, s, step).mem.accepted, Do(c, s, step).db.events, Remaining(s.fpc)[i])
  {
    var rest := Remaining(s.fpc);
    assert ColdEventOk(s.mem.accepted, s.db.events, rest[i]);
    AcceptedGrows(c, s, step);
    OriginKept(s.mem.accepted, Do(c, s, step).mem.accepted);
    if MarksRow(s.fpc, step) {
      assert rest[0] == s.fpc.event;
      assert rest[0].deliveryId != rest[i].deliveryId;
    }
    PendingKept(c, s, step, rest[i].deliveryId);
  }

  lemma RemainingWhileCold(c: Config, s: State, step: Step)
    requires Enabled(c, s, step) && ColdInv(s)
    ensures forall i :: 0 <= i < |Remaining(s.fpc)| ==> Registered(Remaining(s.fpc)[i].body)
    ensures !step.FetchReady? && !step.FetchAll? ==>
              Remaining(Do(c, s, step).fpc) == Remaining(s.fpc)[if step.ColdMark? then 1 else 0..]
  {
    assert forall i :: 0 <= i < |Remaining(s.fpc)| ==>
      ColdEventOk(s.mem.accepted, s.db.events, Remaining(s.fpc)[i]);
    RemainingStep(c, s, step);
  }

  lemma ColdStep(c: Config, s: State, step: Step)
    requires Enabled(c, s, step)
    requires ColdInv(s) && RowsHaveOrigin(s.mem.accepted, s.db.events)
    requires BuffersOk(s.mem) && Conserved(s.mem) && RowsOk(s.db.events)
    ensures ColdInv(Do(c, s, step))
  {
    var s' := Do(c, s, step);
    if step.FetchReady? || step.FetchAll? {
      RemainingFetched(c, s, step);
      ColdFetch(c, s, step);
      FetchOnlyMoves(c, s, step);
    } else {
      var rest, k := Remaining(s.fpc), if step.ColdMark? then 1 else 0;
      RemainingWhileCold(c, s, step);
      forall i: nat | k <= i < |rest| ensures ColdEventOk(s'.mem.accepted, s'.db.events, rest[i]) {
        ColdEventKept(c, s, step, i);
      }
      ColdShift(s.mem.accepted, s'.mem.accepted, s.db.events, s'.db.events, rest, k);
    }
  }

  lemma ColdShift(accepted: seq<OrderedEvent>, accepted': seq<OrderedEvent>, t: Events, t': Events,
                  rest: seq<OrderedEvent>, k: nat)
    requires ColdOk(accepted, t, rest) && k <= |rest|
    requires forall i :: k <= i < |rest| ==> ColdEventOk(accepted', t', rest[i])
    ensures ColdOk(accepted', t', rest[k..])
  {
  }

  lemma RemainingFetched(c: Config, s: State, step: Step)
    requires Enabled(c, s, step) && (step.FetchReady? || step.FetchAll?)
    ensures Remaining(Do(c, s, step).fpc) == step.batch
  {
  }
}
