/** The lifecycle upsert shared by AddOrUpdateJob and AddOrUpdateRun, as a function on a
    table, and what any sequence of upserts leaves behind (internal/database/workflow.go). */
module Lifecycle {
  import opened Base
  import opened Status

  /** A row of workflow_jobs or workflow_runs; `fields` are the columns no rule looks at. */
  datatype Row<F> = Row(status: JobStatus, createdAt: int, fields: F)

  datatype Write<F> = Write(id: int, row: Row<F>)

  type Table<F> = map<int, Row<F>>

  /** The transition rules: the row is written exactly when this holds. */
  predicate Accepts<F>(k: Kind, t: Table<F>, w: Write<F>) {
    && Known(k, w.row.status)
    && (w.id in t ==>
          var existing := t[w.id].status;
          && !Terminal(k, existing)
          && !(Known(k, existing) && Rank(k, w.row.status) < Rank(k, existing)))
  }

  function Upsert<F>(k: Kind, t: Table<F>, w: Write<F>): Table<F> {
    if Accepts(k, t, w) then t[w.id := w.row] else t
  }

  /** The upsert by name: a new row is stored if its status belongs to the lifecycle; a stored
      one gives way to a status at or after its own, or to one that ends it, and to nothing once
      it has ended. */
  lemma UpsertByName<F>(k: Kind, t: Table<F>, w: Write<F>)
    ensures Accepts(k, t, w) <==>
            if w.id in t then TakesOver(k, t[w.id].status, w.row.status)
            else w.row.status in Line(k) || w.row.status in Ends(k)
    ensures Upsert(k, t, w) == if Accepts(k, t, w) then t[w.id := w.row] else t
    ensures forall i, j :: 0 <= i < |Line(k)| && 0 <= j < |Line(k)| && w.id in t
                           && t[w.id].status == Line(k)[i] && w.row.status == Line(k)[j] ==>
              Upsert(k, t, w) == if i <= j then t[w.id := w.row] else t
    ensures w.id in t && t[w.id].status in Line(k) && w.row.status in Ends(k) ==> Upsert(k, t, w) == t[w.id := w.row]
    ensures w.id in t && t[w.id].status in Ends(k) ==> Upsert(k, t, w) == t
  {
    RanksFollowLine(k);
    TakesOverFollowsLine(k);
  }

  /** All of `ws`, in order. */
  function Fold<F>(k: Kind, t: Table<F>, ws: seq<Write<F>>): Table<F> {
    if ws == [] then t else Upsert(k, Fold(k, t, ws[..|ws| - 1]), ws[|ws| - 1])
  }

  lemma FoldSnoc<F>(k: Kind, t: Table<F>, ws: seq<Write<F>>, w: Write<F>)
    ensures Fold(k, t, ws + [w]) == Upsert(k, Fold(k, t, ws), w)
  {
    assert (ws + [w])[..|ws|] == ws;
  }

  lemma {:induction false} FoldAppend<F>(k: Kind, t: Table<F>, a: seq<Write<F>>, b: seq<Write<F>>)
    ensures Fold(k, t, a + b) == Fold(k, Fold(k, t, a), b)
  {
    if b == [] {
      assert a + b == a;
    } else {
      assert (a + b)[..|a + b| - 1] == a + b[..|b| - 1];
      FoldAppend(k, t, a, b[..|b| - 1]);
    }
  }

  function StatusOf<F>(t: Table<F>, id: int): Option<JobStatus> {
    if id in t then Some(t[id].status) else None
  }

  /** Every stored status is one the lifecycle knows. */
  predicate TableKnown<F>(k: Kind, t: Table<F>) {
    forall id :: id in t ==> Known(k, t[id].status)
  }

  /** The two tables have the same row for `id`, or neither has one. */
  predicate AgreesAt<F(==)>(t: Table<F>, t': Table<F>, id: int) {
    (id in t <==> id in t') && (id in t ==> t[id] == t'[id])
  }

  /** An upsert looks at and changes one row only. */
  lemma UpsertIsLocal<F>(k: Kind, t: Table<F>, t': Table<F>, w: Write<F>, id: int)
    requires AgreesAt(t, t', id)
    ensures AgreesAt(Upsert(k, t, w), Upsert(k, t', w), id)
  {
  }

  // ---- the exact final row --------------------------------------------------------

  /** Write number i is a known-status write for `id`. */
  predicate Mentions<F>(k: Kind, ws: seq<Write<F>>, id: int, i: int) {
    0 <= i < |ws| && ws[i].id == id && Known(k, ws[i].row.status)
  }

  /** Write i is the first terminal write for `id`. */
  ghost predicate FirstTerminal<F>(k: Kind, ws: seq<Write<F>>, id: int, i: int) {
    && Mentions(k, ws, id, i) && Terminal(k, ws[i].row.status)
    && forall j :: Mentions(k, ws, id, j) && j < i ==> !Terminal(k, ws[j].row.status)
  }

  /** No write for `id` is terminal, and i is the last of those with maximal priority. */
  ghost predicate LastMaximal<F>(k: Kind, ws: seq<Write<F>>, id: int, i: int) {
    && Mentions(k, ws, id, i)
    && forall j :: Mentions(k, ws, id, j) ==>
         && !Terminal(k, ws[j].row.status)
         && Rank(k, ws[j].row.status) <= Rank(k, ws[i].row.status)
         && (i < j ==> Rank(k, ws[j].row.status) < Rank(k, ws[i].row.status))
  }

  ghost predicate Decides<F>(k: Kind, ws: seq<Write<F>>, id: int, i: int) {
    FirstTerminal(k, ws, id, i) || LastMaximal(k, ws, id, i)
  }

  lemma {:induction false} DecidingWrite<F>(k: Kind, ws: seq<Write<F>>, id: int) returns (i: int)
    ensures id !in Fold(k, map[], ws) ==> forall j :: !Mentions(k, ws, id, j)
    ensures id in Fold(k, map[], ws) ==>
              Decides(k, ws, id, i) && Fold(k, map[], ws)[id] == ws[i].row
  {
    i := 0;
    if ws != [] {
      var n := |ws| - 1;
      var before := ws[..n];
      var i0 := DecidingWrite(k, before, id);
      assert forall j :: j != n ==> (Mentions(k, ws, id, j) <==> Mentions(k, before, id, j));
      i := if ws[n].id == id && Accepts(k, Fold(k, map[], before), ws[n]) then n else i0;
    }
  }

  lemma OneDecidingWrite<F>(k: Kind, ws: seq<Write<F>>, id: int, i: int, j: int)
    requires Decides(k, ws, id, i) && Decides(k, ws, id, j)
    ensures i == j
  {
    assert Mentions(k, ws, id, i) && Mentions(k, ws, id, j);
  }

  /** Closed form: starting from an empty table, the final row of an ID is the payload of its
      first terminal write if there is one, otherwise the payload of its last write of
      maximal priority; it is absent exactly when no write had a known status. */
  lemma ClosedForm<F>(k: Kind, ws: seq<Write<F>>, id: int)
    ensures id in Fold(k, map[], ws) <==> exists i :: Mentions(k, ws, id, i)
    ensures id in Fold(k, map[], ws) ==> exists i :: Decides(k, ws, id, i)
    ensures forall i :: Decides(k, ws, id, i) ==>
              id in Fold(k, map[], ws) && Fold(k, map[], ws)[id] == ws[i].row
  {
    var i := DecidingWrite(k, ws, id);
    forall j | Decides(k, ws, id, j)
      ensures id in Fold(k, map[], ws) && Fold(k, map[], ws)[id] == ws[j].row
    {
      assert Mentions(k, ws, id, j);
      OneDecidingWrite(k, ws, id, i, j);
    }
  }

  lemma {:induction false} FoldIsLocal<F>(k: Kind, t: Table<F>, t': Table<F>, ws: seq<Write<F>>, id: int)
    requires AgreesAt(t, t', id)
    ensures AgreesAt(Fold(k, t, ws), Fold(k, t', ws), id)
  {
    if ws != [] {
      FoldIsLocal(k, t, t', ws[..|ws| - 1], id);
    }
  }

  /** A row left by a fold is the one that was there or the payload of one of the writes; of
      the deciding one when there was none. */
  lemma {:induction false} FoldRowOrigin<F>(k: Kind, t: Table<F>, ws: seq<Write<F>>, id: int)
    ensures id in Fold(k, t, ws) ==>
              (id in t && Fold(k, t, ws)[id] == t[id]) || Write(id, Fold(k, t, ws)[id]) in ws
    ensures id in Fold(k, t, ws) && id !in t ==>
              exists i :: Decides(k, ws, id, i) && Fold(k, t, ws)[id] == ws[i].row
  {
    if ws != [] {
      FoldRowOrigin(k, t, ws[..|ws| - 1], id);
    }
    if id !in t {
      FoldIsLocal(k, t, map[], ws, id);
      ClosedForm(k, ws, id);
    }
  }

  // ---- the final status -----------------------------------------------------------

  /** `o` is a status of highest priority among the known ones in `statuses`;
      nothing is stored exactly when none of them is known. */
  ghost predicate Highest(k: Kind, statuses: set<JobStatus>, o: Option<JobStatus>) {
    match o
    case None => forall x :: x in statuses ==> !Known(k, x)
    case Some(s) =>
      && s in statuses && Known(k, s)
      && forall x :: x in statuses && Known(k, x) ==> Rank(k, x) <= Rank(k, s)
  }

  ghost function StatusesFor<F>(ws: seq<Write<F>>, id: int): set<JobStatus> {
    set w | w in ws && w.id == id :: w.row.status
  }

  function Stored(o: Option<JobStatus>): set<JobStatus> {
    match o
    case None => {}
    case Some(s) => {s}
  }

  lemma UpsertKeepsHighest<F>(k: Kind, t: Table<F>, w: Write<F>, statuses: set<JobStatus>, id: int)
    requires Highest(k, statuses, StatusOf(t, id))
    ensures Highest(k, statuses + if w.id == id then {w.row.status} else {}, StatusOf(Upsert(k, t, w), id))
  {
    TerminalIsTopLayer(k, if id in t then t[id].status else w.row.status);
  }

  /** Whatever the order of the writes, the stored status ends up at a highest-priority one
      among the status the table held before and those written. */
  lemma {:induction false} FoldIsHighest<F>(k: Kind, t: Table<F>, ws: seq<Write<F>>, id: int)
    requires TableKnown(k, t)
    ensures TableKnown(k, Fold(k, t, ws))
    ensures Highest(k, StatusesFor(ws, id) + Stored(StatusOf(t, id)), StatusOf(Fold(k, t, ws), id))
  {
    if ws == [] {
      assert StatusesFor(ws, id) == {};
    } else {
      var n := |ws| - 1;
      FoldIsHighest(k, t, ws[..n], id);
      assert ws == ws[..n] + [ws[n]];
      assert StatusesFor(ws, id) ==
        StatusesFor(ws[..n], id) + if ws[n].id == id then {ws[n].row.status} else {};
      UpsertKeepsHighest(k, Fold(k, t, ws[..n]), ws[n], StatusesFor(ws[..n], id) + Stored(StatusOf(t, id)), id);
      assert StatusesFor(ws, id) + Stored(StatusOf(t, id)) ==
        StatusesFor(ws[..n], id) + Stored(StatusOf(t, id)) + if ws[n].id == id then {ws[n].row.status} else {};
    }
  }

  /** At most one terminal status per ID. */
  ghost predicate OneTerminal<F>(k: Kind, ws: seq<Write<F>>) {
    forall id, a, b ::
      a in StatusesFor(ws, id) && b in StatusesFor(ws, id) && Terminal(k, a) && Terminal(k, b) ==> a == b
  }

  /** The two sequences carry the same set of (ID, status) pairs, in any order and number. */
  ghost predicate SamePairs<F>(ws: seq<Write<F>>, ws': seq<Write<F>>) {
    forall id :: StatusesFor(ws, id) == StatusesFor(ws', id)
  }

  ghost predicate SameStatuses<F>(t: Table<F>, t': Table<F>) {
    forall id :: StatusOf(t, id) == StatusOf(t', id)
  }

  /** Reordering and duplicating the writes never changes a stored status. */
  ghost predicate OrderIndependent<F(!new)>(k: Kind, ws: seq<Write<F>>) {
    forall ws': seq<Write<F>> :: SamePairs(ws, ws') ==>
      SameStatuses(Fold(k, map[], ws), Fold(k, map[], ws'))
  }

  /** With at most one terminal status, "a highest status" is "the highest status". */
  lemma HighestIsUnique(k: Kind, statuses: set<JobStatus>, o: Option<JobStatus>, o': Option<JobStatus>)
    requires Highest(k, statuses, o) && Highest(k, statuses, o')
    requires forall a, b :: a in statuses && b in statuses && Terminal(k, a) && Terminal(k, b) ==> a == b
    ensures o == o'
  {
    if o.Some? && o'.Some? {
      TiesAreTerminal(k, o.value, o'.value);
    }
  }

  lemma SamePairsSameStatus<F>(k: Kind, ws: seq<Write<F>>, ws': seq<Write<F>>)
    requires OneTerminal(k, ws) && SamePairs(ws, ws')
    ensures SameStatuses(Fold(k, map[], ws), Fold(k, map[], ws'))
  {
    forall id ensures StatusOf(Fold(k, map[], ws), id) == StatusOf(Fold(k, map[], ws'), id) {
      FoldIsHighest(k, map[], ws, id);
      FoldIsHighest(k, map[], ws', id);
      assert StatusesFor(ws, id) == StatusesFor(ws', id);
      HighestIsUnique(k, StatusesFor(ws, id) + {},
                      StatusOf(Fold(k, map[], ws), id), StatusOf(Fold(k, map[], ws'), id));
    }
  }

  lemma LeadingTerminalWins<F>(k: Kind, ws: seq<Write<F>>, w: Write<F>)
    requires w in ws && Terminal(k, w.row.status)
    ensures SamePairs(ws, [w] + ws)
    ensures StatusOf(Fold(k, map[], [w] + ws), w.id) == Some(w.row.status)
  {
    assert Mentions(k, [w] + ws, w.id, 0) by { TerminalIsTopLayer(k, w.row.status); }
    assert FirstTerminal(k, [w] + ws, w.id, 0);
    ClosedForm(k, [w] + ws, w.id);
    forall id ensures StatusesFor(ws, id) == StatusesFor([w] + ws, id) {
      assert forall x :: x in [w] + ws <==> x in ws;
    }
  }

  /** Order and duplication independence holds exactly for the sequences with at most one
      terminal status per ID: a `completed` and a `cancelled` for one ID are decided by arrival. */
  lemma OrderIndependentIff<F(!new)>(k: Kind, ws: seq<Write<F>>)
    ensures OrderIndependent(k, ws) <==> OneTerminal(k, ws)
  {
    if OneTerminal(k, ws) {
      forall ws': seq<Write<F>> | SamePairs(ws, ws')
        ensures SameStatuses(Fold(k, map[], ws), Fold(k, map[], ws'))
      {
        SamePairsSameStatus(k, ws, ws');
      }
    } else {
      TwoTerminalsDisagree(k, ws);
    }
  }

  lemma TwoTerminalsDisagree<F(!new)>(k: Kind, ws: seq<Write<F>>)
    requires !OneTerminal(k, ws)
    ensures !OrderIndependent(k, ws)
  {
    var id, a, b :| a in StatusesFor(ws, id) && b in StatusesFor(ws, id) &&
                    Terminal(k, a) && Terminal(k, b) && a != b;
    var v :| v in ws && v.id == id && v.row.status == a;
    var w :| w in ws && w.id == id && w.row.status == b;
    LeadingTerminalWins(k, ws, v);
    LeadingTerminalWins(k, ws, w);
    var t := Fold(k, map[], ws);
    if StatusOf(t, id) == Some(a) {
      assert !SameStatuses(t, Fold(k, map[], [w] + ws));
    } else {
      assert !SameStatuses(t, Fold(k, map[], [v] + ws));
    }
  }

  // ---- sorted replay --------------------------------------------------------------

  /** When the writes of each ID arrive in priority order, as the cold path sorts them, the
      upsert rejects a write for an ID that had no row exactly when its status is unknown or a
      terminal write for that ID came earlier: the sort loses nothing. */
  lemma SortedReplayIsLossless<F>(k: Kind, t: Table<F>, ws: seq<Write<F>>, i: nat)
    requires TableKnown(k, t) && i < |ws| && ws[i].id !in t
    requires forall a, b :: 0 <= a < b <= i && ws[a].id == ws[b].id == ws[i].id ==>
               Rank(k, ws[a].row.status) <= Rank(k, ws[b].row.status)
    ensures Accepts(k, Fold(k, t, ws[..i]), ws[i]) <==>
            Known(k, ws[i].row.status) && NoTerminalBefore(k, ws, ws[i].id, i)
  {
    var id, before := ws[i].id, ws[..i];
    var o := StatusOf(Fold(k, t, before), id);
    FoldIsHighest(k, t, before, id);
    assert Highest(k, StatusesFor(before, id), o) by {
      assert StatusesFor(before, id) + Stored(StatusOf(t, id)) == StatusesFor(before, id);
    }
    if o.Some? {
      var j := FindStatus(before, id, o.value);
      assert Mentions(k, ws, id, j);
      if !Terminal(k, o.value) {
        NoTerminalInside(k, before, id, o.value);
        assert NoTerminalBefore(k, ws, id, i);
      }
    } else {
      NothingKnownInside(k, before, id);
      assert NoTerminalBefore(k, ws, id, i);
    }
  }

  ghost predicate NoTerminalBefore<F>(k: Kind, ws: seq<Write<F>>, id: int, i: nat) {
    forall j :: Mentions(k, ws, id, j) && j < i ==> !Terminal(k, ws[j].row.status)
  }

  lemma FindStatus<F>(ws: seq<Write<F>>, id: int, s: JobStatus) returns (j: nat)
    requires s in StatusesFor(ws, id)
    ensures j < |ws| && ws[j].id == id && ws[j].row.status == s
  {
    var w :| w in ws && w.id == id && w.row.status == s;
    j :| 0 <= j < |ws| && ws[j] == w;
  }

  lemma NoTerminalInside<F>(k: Kind, ws: seq<Write<F>>, id: int, s: JobStatus)
    requires Highest(k, StatusesFor(ws, id), Some(s)) && !Terminal(k, s)
    ensures forall j :: 0 <= j < |ws| && ws[j].id == id ==> !Terminal(k, ws[j].row.status)
  {
    forall j | 0 <= j < |ws| && ws[j].id == id ensures !Terminal(k, ws[j].row.status) {
      assert ws[j] in ws;
      TerminalIsTopLayer(k, s);
      TerminalIsTopLayer(k, ws[j].row.status);
    }
  }

  lemma NothingKnownInside<F>(k: Kind, ws: seq<Write<F>>, id: int)
    requires Highest(k, StatusesFor(ws, id), None)
    ensures forall j :: !Mentions(k, ws, id, j)
  {
  }

  // ---- all writers ----------------------------------------------------------------

  /** A statement of any writer of the table: an upsert, the stale sweep (which also stamps
      completed_at), or the retention delete. */
  datatype Op<!F> =
    | UpsertOp(write: Write<F>)
    | SweepOp(cutoff: int, stamp: F -> F)
    | DeleteOp(cutoff: int)

  /** The rows the stale sweep marks. */
  function SweptIds<F>(t: Table<F>, cutoff: int): set<int> {
    set id | id in t && (t[id].status == Queued || t[id].status == InProgress) && t[id].createdAt < cutoff
  }

  function Sweep<F>(t: Table<F>, cutoff: int, stamp: F -> F): Table<F> {
    map id | id in t ::
      if id in SweptIds(t, cutoff) then Row(Stale, t[id].createdAt, stamp(t[id].fields)) else t[id]
  }

  function DeleteOlder<F>(t: Table<F>, cutoff: int): Table<F> {
    map id | id in t && !(t[id].createdAt < cutoff) :: t[id]
  }

  function Apply<F>(k: Kind, t: Table<F>, op: Op<F>): Table<F> {
    match op
    case UpsertOp(w) => Upsert(k, t, w)
    case SweepOp(cutoff, stamp) => Sweep(t, cutoff, stamp)
    case DeleteOp(cutoff) => DeleteOlder(t, cutoff)
  }

  /** The table after the first n statements, starting empty. */
  function After<F>(k: Kind, ops: seq<Op<F>>, n: nat): Table<F>
    requires n <= |ops|
  {
    if n == 0 then map[] else Apply(k, After(k, ops, n - 1), ops[n - 1])
  }

  /** The sweep only ever runs on workflow_jobs. */
  predicate LegalOps<F>(k: Kind, ops: seq<Op<F>>) {
    k == Run ==> forall i :: 0 <= i < |ops| ==> !ops[i].SweepOp?
  }

  /** `id` has a row at every moment from i to j. */
  ghost predicate PresentThroughout<F>(k: Kind, ops: seq<Op<F>>, id: int, i: nat, j: nat)
    requires j <= |ops|
  {
    forall n: nat :: i <= n <= j ==> id in After(k, ops, n)
  }

  lemma {:induction false} NoUnknownStatusStored<F>(k: Kind, ops: seq<Op<F>>, n: nat)
    requires LegalOps(k, ops) && n <= |ops|
    ensures TableKnown(k, After(k, ops, n))
  {
    if n > 0 {
      NoUnknownStatusStored(k, ops, n - 1);
    }
  }

  /** Over any interleaving of upserts, stale sweeps and retention deletes from an empty
      table: from a row's insertion until its deletion its priority never falls, and once
      terminal it is frozen in every column. */
  lemma {:induction false} RowLifecycle<F>(k: Kind, ops: seq<Op<F>>, id: int, i: nat, j: nat)
    requires LegalOps(k, ops) && i <= j <= |ops|
    requires PresentThroughout(k, ops, id, i, j)
    ensures id in After(k, ops, i) && id in After(k, ops, j)
    ensures Rank(k, After(k, ops, i)[id].status) <= Rank(k, After(k, ops, j)[id].status)
    ensures Terminal(k, After(k, ops, i)[id].status) ==> After(k, ops, j)[id] == After(k, ops, i)[id]
  {
    if i < j {
      RowLifecycle(k, ops, id, i, j - 1);
      NoUnknownStatusStored(k, ops, j - 1);
      var t := After(k, ops, j - 1);
      assert id in t && id in After(k, ops, j);
      assert After(k, ops, j) == Apply(k, t, ops[j - 1]);
    }
  }

  // ---- stale sweep accounting -----------------------------------------------------

  function WithStatus<F>(t: Table<F>, s: JobStatus): set<int> {
    set id | id in t && t[id].status == s
  }

  /** Running plus queued, as GetCurrentJobCounts reports them. */
  function Active<F>(t: Table<F>): nat {
    |WithStatus(t, InProgress)| + |WithStatus(t, Queued)|
  }

  lemma CardPartition<T>(whole: set<T>, part: set<T>, rest: set<T>)
    requires part !! rest && whole == part + rest
    ensures |whole| == |part| + |rest|
  {
  }

  /** A sweep lowers running plus queued by exactly the number of rows it reports. */
  lemma SweepAccounting<F>(t: Table<F>, cutoff: int, stamp: F -> F)
    ensures Active(Sweep(t, cutoff, stamp)) == Active(t) - |SweptIds(t, cutoff)|
  {
    var t' := Sweep(t, cutoff, stamp);
    var swept := SweptIds(t, cutoff);
    var running, queued := WithStatus(t, InProgress), WithStatus(t, Queued);
    assert WithStatus(t', InProgress) == running - swept;
    assert WithStatus(t', Queued) == queued - swept;
    CardPartition(swept, swept * running, swept * queued);
    CardPartition(running, swept * running, running - swept);
    CardPartition(queued, swept * queued, queued - swept);
  }

  /** A sweep marks and stamps exactly the queued and in_progress rows older than the cutoff,
      touches no other row and removes none, so it leaves none of that kind; and a second sweep
      at the same cutoff changes nothing. */
  lemma SweepIsIdempotent<F>(t: Table<F>, cutoff: int, stamp: F -> F)
    ensures Sweep(t, cutoff, stamp).Keys == t.Keys
    ensures forall id :: id in t ==>
              Sweep(t, cutoff, stamp)[id] ==
                if (t[id].status == Queued || t[id].status == InProgress) && t[id].createdAt < cutoff
                then t[id].(status := Stale, fields := stamp(t[id].fields)) else t[id]
    ensures forall id :: id in Sweep(t, cutoff, stamp) && Sweep(t, cutoff, stamp)[id].createdAt < cutoff ==>
              Sweep(t, cutoff, stamp)[id].status != Queued && Sweep(t, cutoff, stamp)[id].status != InProgress
    ensures Sweep(Sweep(t, cutoff, stamp), cutoff, stamp) == Sweep(t, cutoff, stamp)
  {
    var t' := Sweep(t, cutoff, stamp);
    forall id ensures id !in SweptIds(t', cutoff) {
    }
  }
}
