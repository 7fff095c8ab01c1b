/** From accepted run writes to browsers: workflow_run handler calls, each of which writes and
    then submits, racing each other, the retention delete and the coalescer
    (handlers/workflow_run_handler.go, handlers/sse_handler.go). */
module RunFeed {
  import opened Status
  import opened Lifecycle
  import opened Records
  import opened CoalMachine
  import opened RunHandler

  /** `accepted` lists the accepted writes in order, `waiting` those of calls still to submit;
      `clean`: no write was accepted while another call was still to submit. */
  datatype Feed = Feed(
    runs: RunTable, waiting: multiset<RunWrite>, accepted: seq<RunWrite>, coal: Coal, clean: bool)

  /** No error, or an error with the write absent or already durable. */
  datatype Commit = Committed | Absent | Durable

  datatype FeedStep =
    | WriteRun(write: RunWrite, commit: Commit)
    | SubmitRun(write: RunWrite)
    | SubmitOther(ev: SSEEvent)
    | DeleteRuns(cutoff: int)
    | Coalesce(step: CoalStep)

  predicate FeedEnabled(s: Feed, step: FeedStep) {
    match step
    case WriteRun(_, _) => true
    case SubmitRun(w) => w in s.waiting
    case SubmitOther(ev) => ev.kind != WORKFLOW_UPDATE
    case DeleteRuns(_) => true
    case Coalesce(step) => !step.SubmitEvent? && CoalEnabled(s.coal, step)
  }

  function FeedAfter(s: Feed, step: FeedStep): Feed
    requires FeedEnabled(s, step)
  {
    match step
    case WriteRun(w, commit) =>
      var s' := if commit.Absent? then s else s.(runs := Upsert(Run, s.runs, w));
      if commit.Committed? && Accepts(Run, s.runs, w)
      then s'.(waiting := s.waiting + multiset{w}, accepted := s.accepted + [w],
               clean := s.clean && s.waiting == multiset{})
      else s'
    case SubmitRun(w) =>
      s.(waiting := s.waiting - multiset{w}, coal := CoalAfter(s.coal, SubmitEvent(WorkflowUpdate(w))))
    case SubmitOther(ev) => s.(coal := CoalAfter(s.coal, SubmitEvent(ev)))
    case DeleteRuns(cutoff) => s.(runs := DeleteOlder(s.runs, cutoff))
    case Coalesce(step) => s.(coal := CoalAfter(s.coal, step))
  }

  predicate FeedInit(s: Feed) {
    && s.waiting == multiset{} && s.accepted == [] && s.clean
    && CoalInit(s.coal) && TableKnown(Run, s.runs)
  }

  ghost predicate FeedNext(s: Feed, s': Feed) {
    exists step :: FeedEnabled(s, step) && s' == FeedAfter(s, step)
  }

  ghost predicate FeedRun(run: seq<Feed>) {
    && run != [] && FeedInit(run[0])
    && forall i :: 0 <= i < |run| - 1 ==> FeedNext(run[i], run[i + 1])
  }

  // ---- the updates in a list of events --------------------------------------------

  predicate IsUpdate(ev: SSEEvent) {
    ev.kind == WORKFLOW_UPDATE && ev.data.RunUpdate?
  }

  /** The run writes that the workflow_update events of a list report, in order. */
  function Updates(evs: seq<SSEEvent>): seq<RunWrite> {
    if evs == [] then []
    else
      var ev := evs[|evs| - 1];
      Updates(evs[..|evs| - 1]) + if IsUpdate(ev) then [ev.data.write] else []
  }

  lemma {:induction false} UpdatesAppend(a: seq<SSEEvent>, b: seq<SSEEvent>)
    ensures Updates(a + b) == Updates(a) + Updates(b)
  {
    if b == [] {
      assert a + b == a;
    } else {
      assert (a + b)[..|a + b| - 1] == a + b[..|b| - 1];
      UpdatesAppend(a, b[..|b| - 1]);
    }
  }

  lemma UpdatesSnoc(evs: seq<SSEEvent>, ev: SSEEvent)
    ensures Updates(evs + [ev]) == Updates(evs) + if IsUpdate(ev) then [ev.data.write] else []
  {
    assert (evs + [ev])[..|evs|] == evs;
  }

  lemma {:induction false} UpdatesHold(evs: seq<SSEEvent>)
    ensures forall ev :: ev in evs && IsUpdate(ev) ==> ev.data.write in Updates(evs)
    ensures (forall ev :: ev in evs ==> !IsUpdate(ev)) ==> Updates(evs) == []
  {
    if evs != [] {
      UpdatesHold(evs[..|evs| - 1]);
      assert evs == evs[..|evs| - 1] + [evs[|evs| - 1]];
    }
  }

  // ---- invariant ------------------------------------------------------------------

  /** Nothing but run writes is ever submitted as a workflow_update. */
  predicate OnlyUpdates(evs: seq<SSEEvent>) {
    forall ev :: ev in evs && ev.kind == WORKFLOW_UPDATE ==> IsUpdate(ev)
  }

  /** Each accepted write is submitted once, unless its call is still to do so; and without
      overlap, in the order of acceptance. */
  ghost predicate FeedInv(s: Feed) {
    && Reached(s.coal) && OnlyUpdates(s.coal.submitted)
    && multiset(s.accepted) == multiset(Updates(s.coal.submitted)) + s.waiting
    && (s.clean ==> InOrder(s))
  }

  predicate InOrder(s: Feed) {
    if s.waiting == multiset{} then s.accepted == Updates(s.coal.submitted)
    else s.accepted != [] && s.waiting == multiset{s.accepted[|s.accepted| - 1]}
         && s.accepted == Updates(s.coal.submitted) + [s.accepted[|s.accepted| - 1]]
  }

  lemma FeedStepInv(s: Feed, step: FeedStep)
    requires FeedInv(s) && FeedEnabled(s, step)
    ensures FeedInv(FeedAfter(s, step))
  {
    match step {
      case WriteRun(w, commit) => FeedWrite(s, w, commit);
      case SubmitRun(w) => FeedSubmit(s, w);
      case SubmitOther(ev) => FeedOther(s, ev);
      case DeleteRuns(_) =>
      case Coalesce(cs) => ReachedStep(s.coal, cs);
    }
  }

  lemma FeedWrite(s: Feed, w: RunWrite, commit: Commit)
    requires FeedInv(s)
    ensures FeedInv(FeedAfter(s, WriteRun(w, commit)))
  {
    var s' := FeedAfter(s, WriteRun(w, commit));
    assert s'.coal == s.coal;
    if commit.Committed? && Accepts(Run, s.runs, w) {
      assert s'.accepted == s.accepted + [w] && s'.waiting == s.waiting + multiset{w};
      OneMore(s.accepted, Updates(s.coal.submitted), s.waiting, w);
    } else {
      assert s'.accepted == s.accepted && s'.waiting == s.waiting && s'.clean == s.clean;
    }
  }

  lemma OneMore(accepted: seq<RunWrite>, updates: seq<RunWrite>, waiting: multiset<RunWrite>, w: RunWrite)
    requires multiset(accepted) == multiset(updates) + waiting
    ensures multiset(accepted + [w]) == multiset(updates) + (waiting + multiset{w})
    ensures waiting == multiset{} ==> waiting + multiset{w} == multiset{w}
    ensures w in waiting + multiset{w}
  {
  }

  lemma FeedOther(s: Feed, ev: SSEEvent)
    requires FeedInv(s) && ev.kind != WORKFLOW_UPDATE
    ensures FeedInv(FeedAfter(s, SubmitOther(ev)))
  {
    var s' := FeedAfter(s, SubmitOther(ev));
    ReachedStep(s.coal, SubmitEvent(ev));
    UpdatesSnoc(s.coal.submitted, ev);
    assert Updates(s'.coal.submitted) == Updates(s.coal.submitted);
    assert InOrder(s) ==> InOrder(s');
  }

  lemma FeedSubmit(s: Feed, w: RunWrite)
    requires FeedInv(s) && w in s.waiting
    ensures FeedInv(FeedAfter(s, SubmitRun(w)))
  {
    var before := Updates(s.coal.submitted);
    ReachedStep(s.coal, SubmitEvent(WorkflowUpdate(w)));
    UpdatesSnoc(s.coal.submitted, WorkflowUpdate(w));
    assert multiset(before + [w]) == multiset(before) + multiset{w};
    assert s.clean ==> w == s.accepted[|s.accepted| - 1] && s.waiting - multiset{w} == multiset{};
  }

  lemma {:induction false} FeedReachable(run: seq<Feed>)
    requires FeedRun(run)
    ensures FeedInv(run[|run| - 1])
  {
    var n := |run| - 1;
    if n == 0 {
      assert CoalRun([run[0].coal]) && [run[0].coal][|[run[0].coal]| - 1] == run[0].coal;
    } else {
      assert FeedNext(run[n - 1], run[n]);
      FeedReachable(run[..n]);
      var step :| FeedEnabled(run[n - 1], step) && run[n] == FeedAfter(run[n - 1], step);
      FeedStepInv(run[n - 1], step);
    }
  }

  /** Some step of the run stored w, the table having accepted it. */
  ghost predicate StoredIn(run: seq<Feed>, w: RunWrite) {
    exists i :: 0 <= i < |run| - 1 && Accepts(Run, run[i].runs, w) && run[i + 1].runs == run[i].runs[w.id := w.row]
  }

  lemma {:induction false} AcceptedWereStored(run: seq<Feed>)
    requires FeedRun(run)
    ensures forall w :: w in run[|run| - 1].accepted ==> StoredIn(run, w)
  {
    var n := |run| - 1;
    if n > 0 {
      assert FeedNext(run[n - 1], run[n]);
      AcceptedWereStored(run[..n]);
      var step :| FeedEnabled(run[n - 1], step) && run[n] == FeedAfter(run[n - 1], step);
      forall w | w in run[n].accepted ensures StoredIn(run, w) {
        if w in run[n - 1].accepted {
          StoredEarlier(run, n, w);
        } else {
          assert step.WriteRun? && step.write == w;
          assert run[n - 1 + 1].runs == run[n - 1].runs[w.id := w.row];
        }
      }
    }
  }

  lemma StoredEarlier(run: seq<Feed>, n: nat, w: RunWrite)
    requires n <= |run| && StoredIn(run[..n], w)
    ensures StoredIn(run, w)
  {
    var before := run[..n];
    var i :| 0 <= i < |before| - 1 && Accepts(Run, before[i].runs, w)
             && before[i + 1].runs == before[i].runs[w.id := w.row];
    assert before[i] == run[i] && before[i + 1] == run[i + 1];
  }

  // ---- what browsers are told -----------------------------------------------------

  /** Provenance: whatever the interleaving, every workflow_update ever emitted reports a run
      write that the table accepted and stored, and each accepted write is submitted exactly
      once, unless the call that made it has yet to do so. */
  lemma UpdatesStemFromWrites(run: seq<Feed>)
    requires FeedRun(run)
    ensures var s := run[|run| - 1];
            && (forall ev :: ev in s.coal.emitted && ev.kind == WORKFLOW_UPDATE ==>
                  IsUpdate(ev) && ev.data.write in s.accepted && StoredIn(run, ev.data.write))
            && multiset(s.accepted) == multiset(Updates(s.coal.submitted)) + s.waiting
  {
    FeedReachable(run);
    var s := run[|run| - 1];
    ReachedIsOk(s.coal);
    OrdersSubmitted(s.coal.submitted, s.coal.flushes);
    UpdatesHold(s.coal.submitted);
    AcceptedWereStored(run);
    forall ev | ev in s.coal.emitted && ev.kind == WORKFLOW_UPDATE ensures IsUpdate(ev) && ev.data.write in s.accepted {
      assert ev in s.coal.emitted + s.coal.batch;
      assert ev.data.write in multiset(s.accepted);
    }
  }

  /** An order with at most one event of each type holds at most one update. */
  lemma {:induction false} OneUpdate(order: seq<SSEEvent>, ev: SSEEvent)
    requires forall i, j :: 0 <= i < j < |order| ==> order[i].kind != order[j].kind
    requires ev.kind == WORKFLOW_UPDATE && forall x :: x in order && x.kind == WORKFLOW_UPDATE ==> x == ev
    ensures Updates(order) == if IsUpdate(ev) && ev in order then [ev.data.write] else []
  {
    if order != [] {
      var n := |order| - 1;
      OneUpdate(order[..n], ev);
      assert order == order[..n] + [order[n]];
      assert ev in order[..n] ==> order[n] != ev;
    }
  }

  lemma {:induction false} LastUpdate(evs: seq<SSEEvent>) returns (i: int)
    requires OnlyUpdates(evs)
    ensures Updates(evs) == [] ==> forall ev :: ev in evs ==> ev.kind != WORKFLOW_UPDATE
    ensures Updates(evs) != [] ==>
              LastOfKind(evs, i) && IsUpdate(evs[i]) && evs[i].data.write == Updates(evs)[|Updates(evs)| - 1]
  {
    i := |evs| - 1;
    if evs != [] && !IsUpdate(evs[i]) {
      var n := i;
      assert evs == evs[..n] + [evs[n]];
      i := LastUpdate(evs[..n]);
    }
  }

  /** A flush reports the last run write of its window, if there is one, and no other. */
  lemma FlushReports(submitted: seq<SSEEvent>, f: FlushLog)
    requires FlushOk(submitted, f) && OnlyUpdates(submitted)
    ensures var us := Updates(submitted[f.from..f.to]);
            Updates(f.order) == if us == [] then [] else [us[|us| - 1]]
  {
    var window := submitted[f.from..f.to];
    FlushMeaning(submitted, f);
    var i := LastUpdate(window);
    if Updates(window) == [] {
      assert forall ev :: ev in f.order ==> ev in window;
      UpdatesHold(f.order);
    } else {
      forall x | x in f.order && x.kind == WORKFLOW_UPDATE ensures x == window[i] {
        var j :| LastOfKind(window, j) && window[j] == x;
      }
      OneUpdate(f.order, window[i]);
    }
  }

  /** The last run write that the flushes report is the last one submitted before the last swap. */
  lemma {:induction false} LastReported(submitted: seq<SSEEvent>, flushes: seq<FlushLog>)
    requires FlushesOk(submitted, flushes) && OnlyUpdates(submitted) && EndOf(flushes) <= |submitted|
    ensures SameLast(Updates(Orders(flushes)), Updates(submitted[..EndOf(flushes)]))
  {
    if flushes != [] {
      var n := |flushes| - 1;
      var f, before := flushes[n], flushes[..n];
      LastReported(submitted, before);
      FlushReports(submitted, f);
      UpdatesAppend(Orders(before), f.order);
      UpdatesSplit(submitted, f.from, f.to);
      SameLastAppend(Updates(Orders(before)), Updates(submitted[..f.from]),
                     Updates(f.order), Updates(submitted[f.from..f.to]));
    }
  }

  lemma UpdatesSplit(evs: seq<SSEEvent>, from: nat, to: nat)
    requires from <= to <= |evs|
    ensures Updates(evs[..to]) == Updates(evs[..from]) + Updates(evs[from..to])
  {
    assert evs[..to] == evs[..from] + evs[from..to];
    UpdatesAppend(evs[..from], evs[from..to]);
  }

  lemma SameLastAppend(a: seq<RunWrite>, b: seq<RunWrite>, c: seq<RunWrite>, d: seq<RunWrite>)
    requires SameLast(a, b) && SameLast(c, d)
    ensures SameLast(a + c, b + d)
  {
    assert c == [] ==> a + c == a && b + d == b;
  }

  predicate SameLast(a: seq<RunWrite>, b: seq<RunWrite>) {
    (a == [] <==> b == []) && (a != [] ==> a[|a| - 1] == b[|b| - 1])
  }

  /** Every call has submitted and every submission has been emitted. */
  predicate AtRest(s: Feed) {
    s.waiting == multiset{} && !s.coal.flushing && SwapAt(s.coal) == |s.coal.submitted|
  }

  /** Once at rest, the last workflow_update emitted is the last submitted; and if no write was
      accepted while another call was still to submit, it is the last accepted. */
  lemma LastUpdateWins(run: seq<Feed>)
    requires FeedRun(run) && AtRest(run[|run| - 1])
    ensures var s := run[|run| - 1];
            && SameLast(Updates(s.coal.emitted), Updates(s.coal.submitted))
            && (s.clean ==> SameLast(Updates(s.coal.emitted), s.accepted))
  {
    FeedReachable(run);
    var s := run[|run| - 1];
    ReachedIsOk(s.coal);
    LastReported(s.coal.submitted, s.coal.flushes);
    assert s.coal.emitted == s.coal.emitted + s.coal.batch;
    assert s.coal.submitted[..SwapAt(s.coal)] == s.coal.submitted;
  }

  lemma Extended(run: seq<Feed>, step: FeedStep) returns (run': seq<Feed>)
    requires FeedRun(run) && FeedEnabled(run[|run| - 1], step)
    ensures FeedRun(run') && run'[0] == run[0] && run'[|run'| - 1] == FeedAfter(run[|run| - 1], step)
  {
    run' := run + [FeedAfter(run[|run| - 1], step)];
    assert FeedNext(run[|run| - 1], run'[|run|]);
  }

  /** With overlap it need not be: of any two writes of a new run that the table accepts one
      after the other, the first can be the last that browsers hear of. */
  lemma OverlapReportsOlder(s0: Feed, v: RunWrite, w: RunWrite)
    requires FeedInit(s0) && v.id == w.id && v.id !in s0.runs && v != w
    requires Known(Run, v.row.status) && Known(Run, w.row.status) && !Terminal(Run, v.row.status)
    requires Rank(Run, v.row.status) <= Rank(Run, w.row.status)
    ensures exists run: seq<Feed> ::
              && FeedRun(run) && run[0] == s0 && AtRest(run[|run| - 1])
              && w.id in run[|run| - 1].runs && run[|run| - 1].runs[w.id] == w.row
              && Updates(run[|run| - 1].coal.emitted) == [v]
  {
    var run := TwoSubmitted(s0, v, w);
    run := FlushedOnce(run, WorkflowUpdate(v));
    UpdatesSnoc([], WorkflowUpdate(v));
  }

  lemma TwoSubmitted(s0: Feed, v: RunWrite, w: RunWrite) returns (run: seq<Feed>)
    requires FeedInit(s0) && v.id == w.id && v.id !in s0.runs && v != w
    requires Known(Run, v.row.status) && Known(Run, w.row.status) && !Terminal(Run, v.row.status)
    requires Rank(Run, v.row.status) <= Rank(Run, w.row.status)
    ensures FeedRun(run) && run[0] == s0
    ensures var s := run[|run| - 1];
            && s.waiting == multiset{} && s.runs == s0.runs[v.id := v.row][w.id := w.row]
            && s.coal == s0.coal.(submitted := [WorkflowUpdate(w), WorkflowUpdate(v)],
                                  pending := map[WORKFLOW_UPDATE := WorkflowUpdate(v)])
  {
    run := TwoWritten(s0, v, w);
    run := Extended(run, SubmitRun(w));
    run := Extended(run, SubmitRun(v));
  }

  lemma TwoWritten(s0: Feed, v: RunWrite, w: RunWrite) returns (run: seq<Feed>)
    requires FeedInit(s0) && v.id == w.id && v.id !in s0.runs && v != w
    requires Known(Run, v.row.status) && Known(Run, w.row.status) && !Terminal(Run, v.row.status)
    requires Rank(Run, v.row.status) <= Rank(Run, w.row.status)
    ensures FeedRun(run) && run[0] == s0
    ensures var s := run[|run| - 1];
            && s.waiting == multiset{v, w} && s.runs == s0.runs[v.id := v.row][w.id := w.row] && s.coal == s0.coal
  {
    run := Extended([s0], WriteRun(v, Committed));
    run := Extended(run, WriteRun(w, Committed));
  }

  /** A flush of a map that holds just this event. */
  lemma FlushedOnce(run: seq<Feed>, ev: SSEEvent) returns (run': seq<Feed>)
    requires FeedRun(run) && run[|run| - 1].waiting == multiset{}
    requires var coal := run[|run| - 1].coal;
             !coal.flushing && !coal.done && coal.pending == map[ev.kind := ev] && coal.emitted == []
    ensures FeedRun(run') && run'[0] == run[0] && AtRest(run'[|run'| - 1])
    ensures run'[|run'| - 1].coal.emitted == [ev] && run'[|run'| - 1].runs == run[|run| - 1].runs
  {
    run' := Extended(run, Coalesce(Swap([ev], false)));
    run' := Extended(run', Coalesce(Emit));
    run' := Extended(run', Coalesce(EndFlush));
  }
}
