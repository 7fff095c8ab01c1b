/** The SSE coalescer: the latest payload per event type, emitted at most once per flush, with
    submissions racing the flushes (handlers/sse_handler.go, sseCoalescer). */
module CoalMachine {
  import opened Records

  datatype SSEData = RunUpdate(write: RunWrite) | JobGauges(running: nat, queued: nat) | Text(text: string)

  /** `kind` is the event's type field. */
  datatype SSEEvent = SSEEvent(kind: string, data: SSEData)

  /** What the pending map holds after these submissions. */
  function Latest(evs: seq<SSEEvent>): map<string, SSEEvent> {
    if evs == [] then map[] else Latest(evs[..|evs| - 1])[evs[|evs| - 1].kind := evs[|evs| - 1]]
  }

  /** Event i is the last of its type. */
  predicate LastOfKind(evs: seq<SSEEvent>, i: int) {
    0 <= i < |evs| && forall j :: i < j < |evs| ==> evs[j].kind != evs[i].kind
  }

  lemma {:induction false} LastIndex(evs: seq<SSEEvent>, k: string) returns (i: int)
    ensures k in Latest(evs) ==> LastOfKind(evs, i) && evs[i].kind == k && Latest(evs)[k] == evs[i]
    ensures k !in Latest(evs) ==> forall j :: 0 <= j < |evs| ==> evs[j].kind != k
  {
    i := |evs| - 1;
    if evs != [] && evs[i].kind != k {
      var n := i;
      i := LastIndex(evs[..n], k);
      assert forall j :: 0 <= j < n ==> evs[..n][j] == evs[j];
    }
  }

  /** The pending map is keyed by exactly the types submitted and holds the last of each. */
  lemma LatestIsLast(evs: seq<SSEEvent>)
    ensures forall i :: 0 <= i < |evs| ==> evs[i].kind in Latest(evs)
    ensures forall i :: LastOfKind(evs, i) ==> Latest(evs)[evs[i].kind] == evs[i]
    ensures forall k :: k in Latest(evs) ==> exists i :: LastOfKind(evs, i) && evs[i].kind == k
    ensures KeyedByKind(Latest(evs))
  {
    forall i | 0 <= i < |evs|
      ensures evs[i].kind in Latest(evs) && (LastOfKind(evs, i) ==> Latest(evs)[evs[i].kind] == evs[i])
    {
      var j := LastIndex(evs, evs[i].kind);
    }
    forall k | k in Latest(evs)
      ensures (exists i :: LastOfKind(evs, i) && evs[i].kind == k) && Latest(evs)[k].kind == k
    {
      var i := LastIndex(evs, k);
    }
  }

  /** The values of the pending map in some iteration order: one event per type. */
  predicate IsOrder(m: map<string, SSEEvent>, order: seq<SSEEvent>) {
    && (forall i :: 0 <= i < |order| ==> order[i].kind in m && m[order[i].kind] == order[i])
    && (forall i, j :: 0 <= i < j < |order| ==> order[i].kind != order[j].kind)
    && (forall k :: k in m ==> m[k] in order)
  }

  predicate KeyedByKind(m: map<string, SSEEvent>) {
    forall k :: k in m ==> m[k].kind == k
  }

  // ---- the machine ----------------------------------------------------------------

  /** One flush: it swapped out the map built by submissions number `from` to `to`, and emits
      the events of `order`. */
  datatype FlushLog = FlushLog(from: nat, to: nat, order: seq<SSEEvent>)

  /** `batch` holds what the flush in progress has still to send; `final` marks the flush that
      follows the stop signal. */
  datatype Coal = Coal(
    pending: map<string, SSEEvent>, flushing: bool, batch: seq<SSEEvent>,
    stopping: bool, final: bool, done: bool,
    submitted: seq<SSEEvent>, emitted: seq<SSEEvent>, flushes: seq<FlushLog>)

  datatype CoalStep =
    | SubmitEvent(ev: SSEEvent)
    | SignalStop
    | Swap(order: seq<SSEEvent>, final: bool)
    | Emit
    | EndFlush

  /** The number of submissions the swaps so far have taken. */
  function SwapAt(s: Coal): nat {
    EndOf(s.flushes)
  }

  predicate CoalEnabled(s: Coal, step: CoalStep) {
    match step
    case SubmitEvent(_) => true
    case SignalStop => true
    case Swap(order, final) => !s.flushing && !s.done && IsOrder(s.pending, order) && (final ==> s.stopping)
    case Emit => s.flushing && s.batch != []
    case EndFlush => s.flushing && s.batch == []
  }

  function CoalAfter(s: Coal, step: CoalStep): Coal
    requires CoalEnabled(s, step)
  {
    match step
    case SubmitEvent(ev) => s.(pending := s.pending[ev.kind := ev], submitted := s.submitted + [ev])
    case SignalStop => s.(stopping := true)
    case Swap(order, final) =>
      s.(pending := map[], flushing := true, batch := order, final := final,
         flushes := s.flushes + [FlushLog(SwapAt(s), |s.submitted|, order)])
    case Emit => s.(batch := s.batch[1..], emitted := s.emitted + [s.batch[0]])
    case EndFlush => s.(flushing := false, done := s.final)
  }

  predicate CoalInit(s: Coal) {
    s == Coal(map[], false, [], false, false, false, [], [], [])
  }

  ghost predicate CoalNext(s: Coal, s': Coal) {
    exists step :: CoalEnabled(s, step) && s' == CoalAfter(s, step)
  }

  ghost predicate CoalRun(run: seq<Coal>) {
    && run != [] && CoalInit(run[0])
    && forall i :: 0 <= i < |run| - 1 ==> CoalNext(run[i], run[i + 1])
  }

  /** Everything the flushes so far set out to emit, in order. */
  function Orders(flushes: seq<FlushLog>): seq<SSEEvent> {
    if flushes == [] then [] else Orders(flushes[..|flushes| - 1]) + flushes[|flushes| - 1].order
  }

  /** A flush emits, for each type submitted since the previous swap, exactly one event: the
      last submitted. */
  predicate FlushOk(submitted: seq<SSEEvent>, f: FlushLog) {
    f.from <= f.to <= |submitted| && IsOrder(Latest(submitted[f.from..f.to]), f.order)
  }

  /** Where the last window ends. */
  function EndOf(flushes: seq<FlushLog>): nat {
    if flushes == [] then 0 else flushes[|flushes| - 1].to
  }

  /** The flushes partition the submissions up to the last swap: each window starts where the
      one before it ended. */
  predicate FlushesOk(submitted: seq<SSEEvent>, flushes: seq<FlushLog>) {
    flushes == [] ||
    var n := |flushes| - 1;
    && FlushesOk(submitted, flushes[..n])
    && flushes[n].from == EndOf(flushes[..n]) && FlushOk(submitted, flushes[n])
  }

  lemma {:induction false} FlushAt(submitted: seq<SSEEvent>, flushes: seq<FlushLog>, f: nat)
    requires FlushesOk(submitted, flushes) && f < |flushes|
    ensures FlushOk(submitted, flushes[f]) && flushes[f].to <= EndOf(flushes)
    ensures flushes[f].from == if f == 0 then 0 else flushes[f - 1].to
  {
    if f < |flushes| - 1 {
      FlushAt(submitted, flushes[..|flushes| - 1], f);
    }
  }

  lemma FlushExtend(submitted: seq<SSEEvent>, ev: SSEEvent, f: FlushLog)
    requires FlushOk(submitted, f)
    ensures FlushOk(submitted + [ev], f)
  {
    assert (submitted + [ev])[f.from..f.to] == submitted[f.from..f.to];
  }

  lemma {:induction false} FlushesExtend(submitted: seq<SSEEvent>, ev: SSEEvent, flushes: seq<FlushLog>)
    requires FlushesOk(submitted, flushes)
    ensures FlushesOk(submitted + [ev], flushes)
  {
    if flushes != [] {
      var n := |flushes| - 1;
      FlushesExtend(submitted, ev, flushes[..n]);
      FlushExtend(submitted, ev, flushes[n]);
    }
  }

  predicate CoalInv(s: Coal) {
    && FlushesOk(s.submitted, s.flushes) && SwapAt(s) <= |s.submitted|
    && s.pending == Latest(s.submitted[SwapAt(s)..])
    && s.emitted + s.batch == Orders(s.flushes)
    && (!s.flushing ==> s.batch == [])
    && (s.flushing ==> s.flushes != [] && Orders(s.flushes[..|s.flushes| - 1]) <= s.emitted)
    && (s.done ==> s.final && !s.flushing)
  }

  lemma SubmitPending(submitted: seq<SSEEvent>, at: nat, ev: SSEEvent)
    requires at <= |submitted|
    ensures Latest((submitted + [ev])[at..]) == Latest(submitted[at..])[ev.kind := ev]
  {
    var window := submitted[at..];
    assert (submitted + [ev])[at..] == window + [ev];
    assert (window + [ev])[..|window|] == window;
  }

  lemma CoalSubmit(s: Coal, ev: SSEEvent)
    requires CoalInv(s)
    ensures CoalInv(CoalAfter(s, SubmitEvent(ev)))
  {
    SubmitPending(s.submitted, SwapAt(s), ev);
    FlushesExtend(s.submitted, ev, s.flushes);
  }

  lemma AppendFlush(submitted: seq<SSEEvent>, flushes: seq<FlushLog>, log: FlushLog)
    requires FlushesOk(submitted, flushes) && FlushOk(submitted, log) && log.from == EndOf(flushes)
    ensures FlushesOk(submitted, flushes + [log])
    ensures Orders(flushes + [log]) == Orders(flushes) + log.order
  {
    assert (flushes + [log])[..|flushes|] == flushes;
  }

  lemma CoalSwap(s: Coal, order: seq<SSEEvent>, final: bool)
    requires CoalInv(s) && CoalEnabled(s, Swap(order, final))
    ensures CoalInv(CoalAfter(s, Swap(order, final)))
  {
    var n := |s.submitted|;
    assert s.submitted[SwapAt(s)..n] == s.submitted[SwapAt(s)..];
    assert s.submitted[n..] == [];
    AppendFlush(s.submitted, s.flushes, FlushLog(SwapAt(s), n, order));
    assert s.emitted == s.emitted + s.batch;
    assert (s.flushes + [FlushLog(SwapAt(s), n, order)])[..|s.flushes|] == s.flushes;
  }

  lemma CoalStepInv(s: Coal, step: CoalStep)
    requires CoalInv(s) && CoalEnabled(s, step)
    ensures CoalInv(CoalAfter(s, step))
  {
    match step {
      case SubmitEvent(ev) => CoalSubmit(s, ev);
      case SignalStop =>
      case Swap(order, final) => CoalSwap(s, order, final);
      case Emit => assert s.emitted + s.batch == (s.emitted + [s.batch[0]]) + s.batch[1..];
      case EndFlush =>
    }
  }

  lemma {:induction false} CoalReachable(run: seq<Coal>)
    requires CoalRun(run)
    ensures CoalInv(run[|run| - 1])
  {
    var n := |run| - 1;
    if n > 0 {
      assert CoalNext(run[n - 1], run[n]);
      CoalReachable(run[..n]);
      var step :| CoalEnabled(run[n - 1], step) && run[n] == CoalAfter(run[n - 1], step);
      CoalStepInv(run[n - 1], step);
    }
  }

  /** Some run of the machine ends in s. */
  ghost predicate Reached(s: Coal) {
    exists run: seq<Coal> :: CoalRun(run) && run[|run| - 1] == s
  }

  lemma ReachedStep(s: Coal, step: CoalStep)
    requires Reached(s) && CoalEnabled(s, step)
    ensures Reached(CoalAfter(s, step))
  {
    var run: seq<Coal> :| CoalRun(run) && run[|run| - 1] == s;
    var run' := run + [CoalAfter(s, step)];
    assert CoalNext(run[|run| - 1], run'[|run|]);
    assert CoalRun(run') && run'[|run'| - 1] == CoalAfter(s, step);
  }

  lemma ReachedIsOk(s: Coal)
    requires Reached(s)
    ensures CoalInv(s) && KeyedByKind(s.pending)
  {
    var run: seq<Coal> :| CoalRun(run) && run[|run| - 1] == s;
    CoalReachable(run);
    LatestIsLast(s.submitted[SwapAt(s)..]);
  }

  /** Coalescing: whatever submissions race the flushes, the flushes' windows partition the
      submissions up to the last swap; each flush emits exactly one event per type submitted in
      its window, namely the latest; and between flushes exactly those events, in flush order,
      have been emitted. */
  lemma Coalescing(run: seq<Coal>)
    requires CoalRun(run)
    ensures var s := run[|run| - 1];
            && FlushesOk(s.submitted, s.flushes) && SwapAt(s) <= |s.submitted|
            && (!s.flushing ==> s.emitted == Orders(s.flushes))
            && s.emitted <= Orders(s.flushes)
            && s.pending == Latest(s.submitted[SwapAt(s)..])
  {
    CoalReachable(run);
    var s := run[|run| - 1];
    assert !s.flushing ==> s.emitted == s.emitted + s.batch;
  }

  /** What a flush's log says of its window: every event it emits is the last of its type there,
      no type is emitted twice, and every type submitted there is emitted. */
  lemma FlushMeaning(submitted: seq<SSEEvent>, f: FlushLog)
    requires FlushOk(submitted, f)
    ensures forall x :: x in f.order ==>
              exists i :: LastOfKind(submitted[f.from..f.to], i) && submitted[f.from..f.to][i] == x
    ensures forall i, j :: 0 <= i < j < |f.order| ==> f.order[i].kind != f.order[j].kind
    ensures forall i :: LastOfKind(submitted[f.from..f.to], i) ==> submitted[f.from..f.to][i] in f.order
  {
    LatestIsLast(submitted[f.from..f.to]);
  }

  /** The window a swapped submission falls into. */
  lemma {:induction false} WindowOf(submitted: seq<SSEEvent>, flushes: seq<FlushLog>, i: nat) returns (f: nat)
    requires FlushesOk(submitted, flushes) && i < EndOf(flushes)
    ensures f < |flushes| && flushes[f].from <= i < flushes[f].to
  {
    f := |flushes| - 1;
    if i < flushes[f].from {
      f := WindowOf(submitted, flushes[..f], i);
    }
  }

  lemma {:induction false} OrdersHold(flushes: seq<FlushLog>, f: nat, ev: SSEEvent)
    requires f < |flushes| && ev in flushes[f].order
    ensures ev in Orders(flushes)
  {
    if f < |flushes| - 1 {
      OrdersHold(flushes[..|flushes| - 1], f, ev);
    }
  }

  /** Only what was submitted is ever emitted. */
  lemma {:induction false} OrdersSubmitted(submitted: seq<SSEEvent>, flushes: seq<FlushLog>)
    requires FlushesOk(submitted, flushes)
    ensures forall ev :: ev in Orders(flushes) ==> ev in submitted
  {
    if flushes != [] {
      var n := |flushes| - 1;
      OrdersSubmitted(submitted, flushes[..n]);
      FlushMeaning(submitted, flushes[n]);
    }
  }

  /** Event j supersedes event i: same type, submitted no earlier. */
  predicate Supersedes(submitted: seq<SSEEvent>, j: int, i: int) {
    0 <= i <= j < |submitted| && submitted[j].kind == submitted[i].kind
  }

  lemma WindowSupersedes(submitted: seq<SSEEvent>, f: FlushLog, i: nat) returns (j: nat)
    requires FlushOk(submitted, f) && f.from <= i < f.to
    ensures Supersedes(submitted, j, i) && submitted[j] in f.order
  {
    var window := submitted[f.from..f.to];
    assert window[i - f.from] == submitted[i];
    var k := LastIndex(window, submitted[i].kind);
    j := f.from + k;
  }

  /** Where the windows end whose events have all been emitted: before that of the flush in
      progress, if there is one. */
  function EmittedUpTo(s: Coal): nat {
    if s.flushing && s.flushes != [] then EndOf(s.flushes[..|s.flushes| - 1]) else SwapAt(s)
  }

  /** Freshness, in every reachable state: of each submission that a swap has taken, that event
      or a later one of its type has been emitted or is in the batch being emitted; and it has
      been emitted if the submission is not in the window of the flush in progress. */
  lemma Freshness(run: seq<Coal>, i: nat)
    requires CoalRun(run) && i < SwapAt(run[|run| - 1])
    ensures var s := run[|run| - 1];
            && i < |s.submitted|
            && (exists j :: Supersedes(s.submitted, j, i) && s.submitted[j] in s.emitted + s.batch)
            && (i < EmittedUpTo(s) ==> exists j :: Supersedes(s.submitted, j, i) && s.submitted[j] in s.emitted)
  {
    CoalReachable(run);
    var s := run[|run| - 1];
    var j := Superseder(s.submitted, s.flushes, i);
    if i < EmittedUpTo(s) {
      var done := if s.flushing then s.flushes[..|s.flushes| - 1] else s.flushes;
      var j' := Superseder(s.submitted, done, i);
      assert s.flushing || s.emitted == s.emitted + s.batch;
    }
  }

  lemma Superseder(submitted: seq<SSEEvent>, flushes: seq<FlushLog>, i: nat) returns (j: nat)
    requires FlushesOk(submitted, flushes) && i < EndOf(flushes)
    ensures Supersedes(submitted, j, i) && submitted[j] in Orders(flushes)
  {
    var f := WindowOf(submitted, flushes, i);
    FlushAt(submitted, flushes, f);
    j := WindowSupersedes(submitted, flushes[f], i);
    OrdersHold(flushes, f, submitted[j]);
  }

  /** Event i is the last of its type among the first n. */
  predicate LastBefore(evs: seq<SSEEvent>, n: nat, i: nat) {
    i < n <= |evs| && forall j :: i < j < n ==> evs[j].kind != evs[i].kind
  }

  lemma WindowLast(submitted: seq<SSEEvent>, f: FlushLog, i: nat)
    requires FlushOk(submitted, f) && f.from <= i < f.to
    requires forall j :: i < j < f.to ==> submitted[j].kind != submitted[i].kind
    ensures submitted[i] in f.order
  {
    var window := submitted[f.from..f.to];
    assert window[i - f.from] == submitted[i];
    var k := LastIndex(window, submitted[i].kind);
    assert submitted[f.from + k] == window[k];
  }

  /** After stop returns, the last event of each type submitted before the final swap has been
      emitted. */
  lemma StopEmitsEverything(run: seq<Coal>, i: nat)
    requires CoalRun(run) && run[|run| - 1].done
    requires LastBefore(run[|run| - 1].submitted, SwapAt(run[|run| - 1]), i)
    ensures run[|run| - 1].submitted[i] in run[|run| - 1].emitted
  {
    Coalescing(run);
    CoalReachable(run);
    var s := run[|run| - 1];
    var f := WindowOf(s.submitted, s.flushes, i);
    FlushAt(s.submitted, s.flushes, f);
    WindowLast(s.submitted, s.flushes[f], i);
    OrdersHold(s.flushes, f, s.submitted[i]);
  }
}
