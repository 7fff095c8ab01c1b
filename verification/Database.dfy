/** DBWrapper: the three tables and the statements the program issues against them
    (internal/database/workflow.go and event.go). Each transaction is atomic and may fail at
    any of its calls; a failed COMMIT may nevertheless have taken effect. */
module Database {
  import opened Base
  import opened Status
  import opened Lifecycle
  import opened Records
  import opened EventTable

  datatype FetchError = QueryFailed | ScanFailed

  /** CleanupStaleJobs: the sweep marks the row stale and stamps completed_at. */
  function SweepJobs(t: JobTable, cutoff: int, now: int): JobTable {
    Sweep(t, cutoff, (f: JobFields) => f.(completedAt := Some(now)))
  }

  /** The events that a list of delivery IDs stands for. */
  function EventsOf(t: Events, page: seq<string>): seq<OrderedEvent>
    requires forall i :: 0 <= i < |page| ==> page[i] in t && t[page[i]].payload.Some?
  {
    seq(|page|, i requires 0 <= i < |page| => EventOf(page[i], t[page[i]]))
  }

  ghost predicate IsFetch(t: Events, eligible: set<string>, limit: nat, batch: seq<OrderedEvent>) {
    exists page :: IsPage(t, eligible, limit, page) && FetchedFrom(t, page, batch)
  }

  ghost predicate FetchedFrom(t: Events, page: seq<string>, batch: seq<OrderedEvent>) {
    && |batch| == |page|
    && forall i :: 0 <= i < |page| ==>
         page[i] in t && t[page[i]].payload.Some? && batch[i] == EventOf(page[i], t[page[i]])
  }

  /** Fetched events ascend by (timestamp, key, priority). */
  ghost predicate BatchAscends(batch: seq<OrderedEvent>) {
    forall i, j :: 0 <= i < j < |batch| ==>
      Ascending(batch[i].timestamp, batch[i].orderingKey, batch[i].statusPriority,
                batch[j].timestamp, batch[j].orderingKey, batch[j].statusPriority)
  }

  lemma FetchedBatch(t: Events, eligible: set<string>, limit: nat, page: seq<string>, batch: seq<OrderedEvent>)
    requires IsPage(t, eligible, limit, page) && FetchedFrom(t, page, batch)
    ensures BatchAscends(batch) && |batch| <= limit
    ensures forall e :: e in batch ==>
              e.deliveryId in eligible && e.deliveryId in t && e.receivedAt == t[e.deliveryId].receivedAt
    ensures |batch| < limit ==> forall d :: d in eligible ==>
              exists i :: 0 <= i < |batch| && batch[i].deliveryId == d
  {
    PageIsAscending(t, eligible, limit, page);
    forall i, j | 0 <= i < j < |batch|
      ensures Ascending(batch[i].timestamp, batch[i].orderingKey, batch[i].statusPriority,
                        batch[j].timestamp, batch[j].orderingKey, batch[j].statusPriority)
    {
      assert RowsAscend(t, page[i], page[j]);
    }
    if |batch| < limit {
      forall d | d in eligible ensures exists i :: 0 <= i < |batch| && batch[i].deliveryId == d {
        var i :| 0 <= i < |page| && page[i] == d;
        assert batch[i].deliveryId == d;
      }
    }
  }

  class DBWrapper {
    var jobs: JobTable
    var runs: RunTable
    var events: Events

    constructor ()
      ensures jobs == map[] && runs == map[] && events == map[]
    {
      jobs, runs, events := map[], map[], map[];
    }

    method AddOrUpdateJob(w: JobWrite) returns (updated: bool, failed: bool)
      modifies this`jobs
      ensures !failed ==> jobs == Upsert(Job, old(jobs), w) && updated == Accepts(Job, old(jobs), w)
      ensures jobs == old(jobs) || jobs == Upsert(Job, old(jobs), w)
      ensures failed ==> !updated && Known(Job, w.row.status)
      ensures !failed ==>
                (updated <==> if w.id in old(jobs) then TakesOver(Job, old(jobs)[w.id].status, w.row.status)
                              else w.row.status in Line(Job) || w.row.status in Ends(Job))
      ensures !failed ==> jobs == if updated then old(jobs)[w.id := w.row] else old(jobs)
    {
      UpsertByName(Job, jobs, w);
      var incoming := JobStatusPriority(w.row.status);
      if incoming.None? {
        return false, false;
      }
      var begun, loaded, executed, committed, durable := *, *, *, *, *;
      if !begun || !loaded {
        return false, true;
      }
      if w.id in jobs {
        var existing := jobs[w.id].status;
        var existingPrio := JobStatusPriority(existing);
        if IsTerminalJobStatus(existing) && existing == w.row.status {
          return false, false;
        } else if IsTerminalJobStatus(existing) {
          return false, false;
        } else if existingPrio.Some? && incoming.value < existingPrio.value {
          return false, false;
        }
      }
      if !executed {
        return false, true;
      }
      if !committed {
        if durable {
          jobs := jobs[w.id := w.row];
        }
        return false, true;
      }
      jobs := jobs[w.id := w.row];
      return true, false;
    }

    method AddOrUpdateRun(w: RunWrite) returns (updated: bool, failed: bool)
      modifies this`runs
      ensures !failed ==> runs == Upsert(Run, old(runs), w) && updated == Accepts(Run, old(runs), w)
      ensures runs == old(runs) || runs == Upsert(Run, old(runs), w)
      ensures failed ==> !updated && Known(Run, w.row.status)
      ensures !failed ==>
                (updated <==> if w.id in old(runs) then TakesOver(Run, old(runs)[w.id].status, w.row.status)
                              else w.row.status in Line(Run) || w.row.status in Ends(Run))
      ensures !failed ==> runs == if updated then old(runs)[w.id := w.row] else old(runs)
    {
      UpsertByName(Run, runs, w);
      var incoming := RunStatusPriority(w.row.status);
      if incoming.None? {
        return false, false;
      }
      var begun, loaded, executed, committed, durable := *, *, *, *, *;
      if !begun || !loaded {
        return false, true;
      }
      if w.id in runs {
        var existing := runs[w.id].status;
        var existingPrio := RunStatusPriority(existing);
        if IsTerminalRunStatus(existing) && existing == w.row.status {
          return false, false;
        } else if IsTerminalRunStatus(existing) {
          return false, false;
        } else if existingPrio.Some? && incoming.value < existingPrio.value {
          return false, false;
        }
      }
      if !executed {
        return false, true;
      }
      if !committed {
        if durable {
          runs := runs[w.id := w.row];
        }
        return false, true;
      }
      runs := runs[w.id := w.row];
      return true, false;
    }

    /** The stored status, or the empty status when there is no such row or the read fails. */
    method GetJobStatus(id: int) returns (status: JobStatus, failed: bool)
      ensures !failed ==> status == if id in jobs then jobs[id].status else Other("")
      ensures failed ==> status == Other("")
    {
      failed := *;
      status := Other("");
      if !failed && id in jobs {
        status := jobs[id].status;
      }
    }

    /** The retention delete: one transaction over the three tables. Of the jobs and runs it keeps
        those created at the cutoff or later, of the events those not processed before it, all
        as they were. */
    method CleanupOldData(cutoff: int) returns (deletedRuns: nat, deletedJobs: nat, deletedEvents: nat, failed: bool)
      modifies this
      ensures !failed ==>
                && jobs == DeleteOlder(old(jobs), cutoff) && deletedJobs == |old(jobs)| - |jobs|
                && runs == DeleteOlder(old(runs), cutoff) && deletedRuns == |old(runs)| - |runs|
                && events == Expire(old(events), cutoff) && deletedEvents == |old(events)| - |events|
      ensures !failed ==>
                && (forall id :: id in jobs <==> id in old(jobs) && old(jobs)[id].createdAt >= cutoff)
                && (forall id :: id in runs <==> id in old(runs) && old(runs)[id].createdAt >= cutoff)
                && (forall d :: d in events <==>
                      (d in old(events)
                       && (old(events)[d].processedAt.None? || old(events)[d].processedAt.value >= cutoff)))
      ensures !failed ==>
                && (forall id :: id in jobs ==> jobs[id] == old(jobs)[id])
                && (forall id :: id in runs ==> runs[id] == old(runs)[id])
                && (forall d :: d in events ==> events[d] == old(events)[d])
      ensures failed ==>
                || (jobs == old(jobs) && runs == old(runs) && events == old(events))
                || (jobs == DeleteOlder(old(jobs), cutoff) && runs == DeleteOlder(old(runs), cutoff)
                    && events == Expire(old(events), cutoff))
    {
      deletedRuns, deletedJobs, deletedEvents, failed := 0, 0, 0, *;
      var durable := *;
      if failed && !durable {
        return;
      }
      var jobs', runs', events' := DeleteOlder(jobs, cutoff), DeleteOlder(runs, cutoff), Expire(events, cutoff);
      KeysShrink(jobs, jobs');
      KeysShrink(runs, runs');
      KeysShrink(events, events');
      if !failed {
        deletedRuns, deletedJobs, deletedEvents :=
          |runs| - |runs'|, |jobs| - |jobs'|, |events| - |events'|;
      }
      jobs, runs, events := jobs', runs', events';
    }

    /** One UPDATE: every queued or in_progress job created before the cutoff becomes stale and
        completed now, no other row changes, and the count it reports is the number of rows it
        marked. */
    method CleanupStaleJobs(cutoff: int, now: int) returns (affected: nat, failed: bool)
      modifies this`jobs
      ensures !failed ==> jobs == SweepJobs(old(jobs), cutoff, now)
      ensures !failed ==> jobs.Keys == old(jobs).Keys && forall id :: id in jobs ==>
                var row := old(jobs)[id];
                jobs[id] == if (row.status == Queued || row.status == InProgress) && row.createdAt < cutoff
                            then row.(status := Stale, fields := row.fields.(completedAt := Some(now))) else row
      ensures !failed ==> affected == |set id | id in old(jobs) && old(jobs)[id].createdAt < cutoff
                                          && (old(jobs)[id].status == Queued || old(jobs)[id].status == InProgress)|
      ensures !failed ==> Active(jobs) == Active(old(jobs)) - affected
      ensures failed ==> jobs == old(jobs) || jobs == SweepJobs(old(jobs), cutoff, now)
    {
      failed, affected := *, 0;
      var durable := *;
      if !failed || durable {
        SweepAccounting(jobs, cutoff, (f: JobFields) => f.(completedAt := Some(now)));
        if !failed {
          affected := |SweptIds(jobs, cutoff)|;
          assert SweptIds(jobs, cutoff) ==
            set id | id in jobs && jobs[id].createdAt < cutoff
                     && (jobs[id].status == Queued || jobs[id].status == InProgress);
        }
        jobs := SweepJobs(jobs, cutoff, now);
      }
    }

    method GetCurrentJobCounts() returns (running: nat, queued: nat, failed: bool)
      ensures !failed ==> running == |set id | id in jobs && jobs[id].status == InProgress|
      ensures !failed ==> queued == |set id | id in jobs && jobs[id].status == Queued|
      ensures !failed ==> running + queued == Active(jobs) <= |jobs|
    {
      running, queued, failed := 0, 0, *;
      if !failed {
        running, queued := |WithStatus(jobs, InProgress)|, |WithStatus(jobs, Queued)|;
        CardPartition(WithStatus(jobs, InProgress) + WithStatus(jobs, Queued),
                      WithStatus(jobs, InProgress), WithStatus(jobs, Queued));
        Subset(WithStatus(jobs, InProgress) + WithStatus(jobs, Queued), jobs.Keys);
        assert |jobs| == |jobs.Keys|;
      }
    }

    /** Upserts a batch in one transaction. `done` says the caller's context was already
        cancelled, in which case the transaction never begins. */
    method StoreWebhookEvents(done: bool, es: seq<OrderedEvent>) returns (failed: bool)
      modifies this`events
      ensures !failed ==> events == StoreAll(old(events), es)
      ensures events == old(events) || events == StoreAll(old(events), es)
      ensures done && es != [] ==> failed && events == old(events)
    {
      if |es| == 0 {
        return false;
      }
      var begun := *;
      if done || !begun {
        return true;
      }
      var tx := events;
      for i := 0 to |es|
        invariant tx == StoreAll(events, es[..i])
        invariant events == old(events)
      {
        var executed := *;
        if !executed {
          return true;
        }
        tx := StoreOne(tx, es[i]);
        assert es[..i + 1][..i] == es[..i];
      }
      assert es[..|es|] == es;
      var committed, durable := *, *;
      if committed || durable {
        events := tx;
      }
      return !committed;
    }

    /** The least of the remaining rows in replay order. */
    method FirstInOrder(rest: set<string>) returns (first: string)
      requires rest != {} && forall d :: d in rest ==> d in events
      ensures first in rest
      ensures forall d :: d in rest ==> SortsBefore(KeyOf(events[first]), KeyOf(events[d]))
    {
      first :| first in rest;
      var left := rest - {first};
      SortIsTotalPreorder(KeyOf(events[first]), KeyOf(events[first]), KeyOf(events[first]));
      while left != {}
        invariant left <= rest && first in rest && first !in left
        invariant forall d :: d in rest - left ==> SortsBefore(KeyOf(events[first]), KeyOf(events[d]))
        decreases left
      {
        var d :| d in left;
        forall x | x in rest - left {
          SortIsTotalPreorder(KeyOf(events[d]), KeyOf(events[first]), KeyOf(events[x]));
        }
        SortIsTotalPreorder(KeyOf(events[d]), KeyOf(events[d]), KeyOf(events[d]));
        if !SortsBefore(KeyOf(events[first]), KeyOf(events[d])) {
          first := d;
        }
        left := left - {d};
      }
    }

    /** ORDER BY github_timestamp, ordering_key, status_priority LIMIT limit: oldest first. */
    method SelectPage(eligible: set<string>, limit: nat) returns (page: seq<string>)
      requires forall d :: d in eligible ==> d in events
      ensures IsPage(events, eligible, limit, page)
      ensures forall i, j :: 0 <= i < j < |page| ==> events[page[i]].timestamp <= events[page[j]].timestamp
      ensures forall i, d :: 0 <= i < |page| && d in eligible && d !in page ==>
                events[page[i]].timestamp <= events[d].timestamp
      ensures PageAscends(events, eligible, page)
    {
      page := [];
      var rest := eligible;
      while |page| < limit && rest != {}
        invariant rest <= eligible && |page| <= limit
        invariant forall d :: d in eligible ==> (d in page <==> d !in rest)
        invariant forall i :: 0 <= i < |page| ==> page[i] in eligible - rest
        invariant forall i, j :: 0 <= i < j < |page| ==> page[i] != page[j]
        invariant forall i, j :: 0 <= i < j < |page| ==>
                    SortsBefore(KeyOf(events[page[i]]), KeyOf(events[page[j]]))
        invariant forall i, d :: 0 <= i < |page| && d in rest ==>
                    SortsBefore(KeyOf(events[page[i]]), KeyOf(events[d]))
        decreases rest
      {
        var first := FirstInOrder(rest);
        page := page + [first];
        rest := rest - {first};
      }
      PageIsAscending(events, eligible, limit, page);
    }

    /** Scans the rows of a page; a NULL payload cannot be scanned and fails the query. */
    method ScanRows(page: seq<string>) returns (batch: seq<OrderedEvent>, scanned: bool)
      requires forall i :: 0 <= i < |page| ==> page[i] in events
      ensures scanned ==> FetchedFrom(events, page, batch)
      ensures !scanned <==> exists i :: 0 <= i < |page| && events[page[i]].payload.None?
    {
      batch := [];
      for i := 0 to |page|
        invariant |batch| == i
        invariant forall j :: 0 <= j < i ==>
                    events[page[j]].payload.Some? && batch[j] == EventOf(page[j], events[page[j]])
      {
        var row := events[page[i]];
        if row.payload.None? {
          return [], false;
        }
        batch := batch + [EventOf(page[i], row)];
      }
      scanned := true;
    }

    method GetPendingEventsGrouped(limit: nat) returns (batch: seq<OrderedEvent>, error: Option<FetchError>)
      ensures error.None? ==> IsFetch(events, PendingIds(events), limit, batch)
      ensures error.None? ==> BatchAscends(batch) && |batch| <= limit
      ensures error.None? ==> forall e :: e in batch ==>
                e.deliveryId in events && events[e.deliveryId].status == Pending
      ensures error.None? && |batch| < limit ==> forall d :: d in events && events[d].status == Pending ==>
                exists i :: 0 <= i < |batch| && batch[i].deliveryId == d
      ensures error == Some(ScanFailed) ==> !RowsOk(events)
    {
      var failed := *;
      if failed {
        return [], Some(QueryFailed);
      }
      var page := SelectPage(PendingIds(events), limit);
      var scanned;
      batch, scanned := ScanRows(page);
      if !scanned {
        return [], Some(ScanFailed);
      }
      FetchedBatch(events, PendingIds(events), limit, page, batch);
      assert forall d :: d in events && events[d].status == Pending ==> d in PendingIds(events);
      error := None;
    }

    /** The pending rows received at least `maxAge` ago. */
    method GetPendingEventsByAge(done: bool, now: int, maxAge: int, limit: nat)
      returns (batch: seq<OrderedEvent>, error: Option<FetchError>)
      ensures error.None? ==> !done && IsFetch(events, ReadyIds(events, now - maxAge), limit, batch)
      ensures error.None? ==> BatchAscends(batch) && |batch| <= limit
      ensures error.None? ==> forall e :: e in batch ==>
                && e.deliveryId in events && events[e.deliveryId].status == Pending
                && e.receivedAt == events[e.deliveryId].receivedAt && e.receivedAt + maxAge <= now
      ensures error.None? && |batch| < limit ==>
                forall d :: d in events && events[d].status == Pending && events[d].receivedAt + maxAge <= now ==>
                  exists i :: 0 <= i < |batch| && batch[i].deliveryId == d
      ensures error == Some(ScanFailed) ==> !RowsOk(events)
    {
      var failed := *;
      if done || failed {
        return [], Some(QueryFailed);
      }
      var cutoff := now - maxAge;
      var page := SelectPage(ReadyIds(events, cutoff), limit);
      var scanned;
      batch, scanned := ScanRows(page);
      if !scanned {
        return [], Some(ScanFailed);
      }
      FetchedBatch(events, ReadyIds(events, cutoff), limit, page, batch);
      assert forall d :: d in events && events[d].status == Pending && events[d].receivedAt + maxAge <= now ==>
          d in ReadyIds(events, cutoff);
      error := None;
    }

    method MarkEventProcessed(d: string, now: int) returns (failed: bool)
      modifies this`events
      ensures !failed ==> events == SetProcessed(old(events), d, now)
      ensures events == old(events) || events == SetProcessed(old(events), d, now)
      ensures events.Keys == old(events).Keys
      ensures forall d' :: d' in events && d' != d ==> events[d'] == old(events)[d']
      ensures !failed && d in events ==>
                && events[d].status == Processed && events[d].processedAt == Some(now) && events[d].payload == None
                && events[d] == old(events)[d].(status := Processed, processedAt := Some(now), payload := None)
    {
      failed := *;
      var durable := *;
      if !failed || durable {
        events := SetProcessed(events, d, now);
      }
    }

    method MarkEventFailed(d: string) returns (failed: bool)
      modifies this`events
      ensures !failed ==> events == SetFailed(old(events), d)
      ensures events == old(events) || events == SetFailed(old(events), d)
      ensures events.Keys == old(events).Keys
      ensures forall d' :: d' in events && d' != d ==> events[d'] == old(events)[d']
      ensures !failed && d in events ==> events[d] == old(events)[d].(status := Failed)
    {
      failed := *;
      var durable := *;
      if !failed || durable {
        events := SetFailed(events, d);
      }
    }
  }

  lemma KeysShrink<K, V>(t: map<K, V>, t': map<K, V>)
    requires t'.Keys <= t.Keys
    ensures |t'| <= |t|
  {
    Subset(t'.Keys, t.Keys);
    assert |t| == |t.Keys| && |t'| == |t'.Keys|;
  }
}
