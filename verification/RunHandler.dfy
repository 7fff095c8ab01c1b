/** The workflow_run handler: an accepted write submits a coalesced SSE update, and nothing else
    does (handlers/workflow_run_handler.go). */
module RunHandler {
  import opened Base
  import opened Status
  import opened Lifecycle
  import opened Records
  import opened Database
  import opened CoalMachine
  import opened Coalescer

  const WORKFLOW_UPDATE := "workflow_update"

  function WorkflowUpdate(w: RunWrite): SSEEvent {
    SSEEvent(WORKFLOW_UPDATE, RunUpdate(w))
  }

  class WorkflowRunHandler {
    const db: DBWrapper
    const sse: SSEHandler

    constructor (db: DBWrapper, sse: SSEHandler)
      ensures this.db == db && this.sse == sse
    {
      this.db, this.sse := db, sse;
    }

    /** A rejected, unknown or failed write leaves the coalescer untouched, even when the failed
        write took effect; an accepted one becomes the pending workflow_update. */
    method HandleEvent(w: RunWrite) returns (failed: bool)
      modifies db`runs, sse`pending, sse`coal
      ensures !failed ==> db.runs == Upsert(Run, old(db.runs), w)
      ensures failed ==> Known(Run, w.row.status)
      ensures db.runs == old(db.runs) || db.runs == Upsert(Run, old(db.runs), w)
      ensures failed || !Accepts(Run, old(db.runs), w) ==>
                sse.pending == old(sse.pending) && sse.coal == old(sse.coal)
      ensures !failed && Accepts(Run, old(db.runs), w) ==>
                && sse.pending == old(sse.pending)[WORKFLOW_UPDATE := WorkflowUpdate(w)]
                && sse.coal == CoalAfter(old(sse.coal), SubmitEvent(WorkflowUpdate(w)))
      ensures old(sse.Valid()) ==> sse.Valid()
    {
      if RunStatusPriority(w.row.status).None? {
        return false;
      }
      var updated;
      updated, failed := db.AddOrUpdateRun(w);
      if failed || !updated {
        return;
      }
      sse.Submit(WorkflowUpdate(w));
    }
  }
}
