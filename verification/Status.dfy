/** Lifecycle statuses and their priorities (models/status_priority.go). */
module Status {
  import opened Base

  /** The seven statuses the program names, and any other string a webhook may carry.
      The empty string, which stands for an absent job, is Other(""). */
  datatype JobStatus =
    | Waiting | Queued | Requested | InProgress
    | Completed | Cancelled | Stale
    | Other(name: string)

  /** Which of the two lifecycles applies: workflow_jobs or workflow_runs. */
  datatype Kind = Job | Run

  function JobStatusPriority(s: JobStatus): Option<nat> {
    match s
    case Waiting => Some(1)
    case Queued => Some(2)
    case Requested => Some(3)
    case InProgress => Some(4)
    case Completed | Cancelled | Stale => Some(5)
    case Other(_) => None
  }

  function RunStatusPriority(s: JobStatus): Option<nat> {
    match s
    case Requested => Some(1)
    case InProgress => Some(2)
    case Completed | Cancelled => Some(3)
    case _ => None
  }

  predicate IsTerminalJobStatus(s: JobStatus) {
    s.Completed? || s.Cancelled? || s.Stale?
  }

  predicate IsTerminalRunStatus(s: JobStatus) {
    s.Completed? || s.Cancelled?
  }

  function Priority(k: Kind, s: JobStatus): Option<nat> {
    match k
    case Job => JobStatusPriority(s)
    case Run => RunStatusPriority(s)
  }

  predicate Terminal(k: Kind, s: JobStatus) {
    match k
    case Job => IsTerminalJobStatus(s)
    case Run => IsTerminalRunStatus(s)
  }

  predicate Known(k: Kind, s: JobStatus) {
    Priority(k, s).Some?
  }

  /** The priority stored with an event: unknown statuses sort first, at 0. */
  function Rank(k: Kind, s: JobStatus): nat {
    match Priority(k, s)
    case Some(p) => p
    case None => 0
  }

  /** The terminal statuses are exactly the top layer of the priority order: the two
      independent tables of the source agree, for jobs and for runs. */
  lemma TerminalIsTopLayer(k: Kind, s: JobStatus)
    ensures Terminal(k, s) <==>
            Known(k, s) && forall x :: Known(k, x) ==> Rank(k, x) <= Rank(k, s)
  {
    assert Known(k, Completed) && Terminal(k, Completed);
  }

  /** The documented lifecycle of a job or run, in order, and the statuses that end it. */
  function Line(k: Kind): seq<JobStatus> {
    if k == Job then [Waiting, Queued, Requested, InProgress] else [Requested, InProgress]
  }

  function Ends(k: Kind): set<JobStatus> {
    if k == Job then {Completed, Cancelled, Stale} else {Completed, Cancelled}
  }

  /** The priorities number the lifecycle from 1: every ending status shares the highest, and any
      other status is unknown and sorts before all of them. */
  lemma RanksFollowLine(k: Kind)
    ensures forall i :: 0 <= i < |Line(k)| ==> Rank(k, Line(k)[i]) == i + 1
    ensures forall e :: e in Ends(k) ==> Rank(k, e) == |Line(k)| + 1
    ensures forall s :: Known(k, s) <==> s in Line(k) || s in Ends(k)
    ensures forall s :: Terminal(k, s) <==> s in Ends(k)
    ensures forall s :: !Known(k, s) ==> Rank(k, s) == 0
  {
    if k == Job {
      assert Line(k)[0] == Waiting && Line(k)[1] == Queued && Line(k)[2] == Requested && Line(k)[3] == InProgress;
    } else {
      assert Line(k)[0] == Requested && Line(k)[1] == InProgress;
    }
  }

  /** Which stored status gives way to which incoming one, by name. */
  predicate TakesOver(k: Kind, stored: JobStatus, incoming: JobStatus) {
    match k
    case Job => (
      match stored
      case Completed | Cancelled | Stale => false
      case InProgress => incoming in {InProgress, Completed, Cancelled, Stale}
      case Requested => incoming in {Requested, InProgress, Completed, Cancelled, Stale}
      case Queued => incoming in {Queued, Requested, InProgress, Completed, Cancelled, Stale}
      case Waiting | Other(_) => incoming in {Waiting, Queued, Requested, InProgress, Completed, Cancelled, Stale})
    case Run => (
      match stored
      case Completed | Cancelled => false
      case InProgress => incoming in {InProgress, Completed, Cancelled}
      case _ => incoming in {Requested, InProgress, Completed, Cancelled})
  }

  /** The table says what the priorities say, and it follows the lifecycle: a status gives way to
      itself, to a later one and to an ending one, never to an earlier one, and nothing follows
      an ending one. */
  lemma TakesOverFollowsLine(k: Kind)
    ensures forall s, s' :: TakesOver(k, s, s') <==>
              Known(k, s') && !Terminal(k, s) && !(Known(k, s) && Rank(k, s') < Rank(k, s))
    ensures forall i, j :: 0 <= i < |Line(k)| && 0 <= j < |Line(k)| ==>
              (TakesOver(k, Line(k)[i], Line(k)[j]) <==> i <= j)
    ensures forall i, e :: 0 <= i < |Line(k)| && e in Ends(k) ==> TakesOver(k, Line(k)[i], e)
    ensures forall e, s :: e in Ends(k) ==> !TakesOver(k, e, s)
  {
  }

  /** Below the top layer a priority names one status, so only terminal statuses can tie. */
  lemma TiesAreTerminal(k: Kind, a: JobStatus, b: JobStatus)
    requires Known(k, a) && Known(k, b) && Rank(k, a) == Rank(k, b)
    ensures a == b || (Terminal(k, a) && Terminal(k, b))
  {
  }
}
