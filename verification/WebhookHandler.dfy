/** processOrderedEvent: dispatch to the handler of the event's type, then mark the row of an
    event that came from the spill table (handlers/webhook_handler.go). */
module WebhookHandler {
  import opened Base
  import opened Status
  import opened Lifecycle
  import opened Records
  import opened EventTable
  import opened Database
  import opened Pipeline
  import opened JobHandler
  import opened RunHandler

  datatype ProcessError = Permanent | HandlerFailed | MarkFailure

  function JobsAfter(t: JobTable, b: Body, o: Outcome): JobTable {
    if b.JobBody? && !o.FailedClean? then Upsert(Job, t, b.job) else t
  }

  function RunsAfter(t: RunTable, b: Body, o: Outcome): RunTable {
    if b.RunBody? && !o.FailedClean? then Upsert(Run, t, b.run) else t
  }

  class Processor {
    const db: DBWrapper
    const jobs: WorkflowJobHandler
    const runs: WorkflowRunHandler

    constructor (db: DBWrapper, jobs: WorkflowJobHandler, runs: WorkflowRunHandler)
      ensures this.db == db && this.jobs == jobs && this.runs == runs
    {
      this.db, this.jobs, this.runs := db, jobs, runs;
    }

    predicate Wired() {
      jobs.db == db && runs.db == db
    }

    /** Only an event of an unregistered type fails permanently, and its row is never marked.
        A registered event's write lands as its outcome says; if it came from the spill table
        its row is marked processed or failed, a failing handler being final. */
    method ProcessOrderedEvent(e: OrderedEvent, now: int)
      returns (error: Option<ProcessError>, ghost outcome: Outcome, ghost mark: Result)
      requires Wired()
      modifies db, jobs, runs.sse`pending, runs.sse`coal
      ensures OutcomeAllowed(e.body, outcome)
      ensures old(runs.sse.Valid()) ==> runs.sse.Valid()
      ensures db.jobs == JobsAfter(old(db.jobs), e.body, outcome)
      ensures db.runs == RunsAfter(old(db.runs), e.body, outcome)
      ensures error == Some(Permanent) <==> !Registered(e.body)
      ensures Registered(e.body) ==> (outcome.Handled? <==> error != Some(HandlerFailed))
      ensures !Registered(e.body) || !e.persisted ==> db.events == old(db.events)
      ensures Registered(e.body) && e.persisted ==>
                db.events == if mark.Lost? then old(db.events)
                             else Marked(old(db.events), e.deliveryId, outcome.Handled?, now)
      ensures error == Some(MarkFailure) <==> Registered(e.body) && e.persisted && outcome.Handled? && !mark.Ok?
    {
      outcome, mark := Handled, Ok;
      var failed := false;
      match e.body {
        case OtherBody(_) =>
          return Some(Permanent), Handled, Ok;
        case JobBody(w) =>
          failed := jobs.HandleEvent(w);
          if failed {
            outcome := if db.jobs == old(db.jobs) then FailedClean else FailedDurable;
          }
        case RunBody(w) =>
          failed := runs.HandleEvent(w);
          if failed {
            outcome := if db.runs == old(db.runs) then FailedClean else FailedDurable;
          }
      }
      if failed {
        if e.persisted {
          var markFailed := db.MarkEventFailed(e.deliveryId);
          mark := MarkResult(markFailed, old(db.events), db.events);
        }
        return Some(HandlerFailed), outcome, mark;
      }
      if e.persisted {
        var markFailed := db.MarkEventProcessed(e.deliveryId, now);
        mark := MarkResult(markFailed, old(db.events), db.events);
        if markFailed {
          return Some(MarkFailure), outcome, mark;
        }
      }
      return None, outcome, mark;
    }
  }

  ghost function MarkResult(failed: bool, before: Events, after: Events): Result {
    if !failed then Ok else if after == before then Lost else Durable
  }
}
