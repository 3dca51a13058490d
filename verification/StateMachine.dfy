/** Job, worker and session statuses, their transition tables and terminal sets (src/core/stateMachine.ts). */
module StateMachine {
  datatype JobStatus =
    | Queued | Preparing | Dispatching | Running | Aggregating | Completed | Failed | Canceled | TimedOut

  datatype WorkerStatus = Created | Starting | Active | Finishing | Finished | Failed | Canceled | Lost

  datatype SessionStatus = Uninitialized | Attached | Active | Detached | Closed

  predicate TerminalJob(s: JobStatus) {
    s.Completed? || s.Failed? || s.Canceled? || s.TimedOut?
  }

  predicate TerminalWorker(s: WorkerStatus) {
    s.Finished? || s.Failed? || s.Canceled? || s.Lost?
  }

  predicate TerminalSession(s: SessionStatus) {
    s == SessionStatus.Closed
  }

  predicate ValidJob(from: JobStatus, to: JobStatus) {
    match from
    case Queued => to.Preparing? || to.Canceled?
    case Preparing => to.Dispatching? || to.Failed? || to.Canceled?
    case Dispatching => to.Running? || to.Failed? || to.Canceled? || to.TimedOut?
    case Running => to.Aggregating? || to.Failed? || to.Canceled? || to.TimedOut?
    case Aggregating => to.Completed? || to.Failed? || to.Canceled? || to.TimedOut?
    case _ => false
  }

  predicate ValidWorker(from: WorkerStatus, to: WorkerStatus) {
    match from
    case Created => to.Starting? || to.Canceled?
    case Starting => to.Active? || to.Failed? || to.Canceled? || to.Lost?
    case Active => to.Finishing? || to.Failed? || to.Canceled? || to.Lost?
    case Finishing => to.Finished? || to.Failed? || to.Canceled? || to.Lost?
    case _ => false
  }

  predicate ValidSession(from: SessionStatus, to: SessionStatus) {
    match from
    case Uninitialized => to.Attached? || to.Detached? || to.Closed?
    case Attached => to.Active? || to.Detached? || to.Closed?
    case Active => to.Attached? || to.Detached? || to.Closed?
    case Detached => to.Attached? || to.Active? || to.Closed?
    case Closed => false
  }

  /** How far a job has come: its place on the linear flow, terminal statuses last. */
  function Rank(s: JobStatus): nat {
    match s
    case Queued => 0
    case Preparing => 1
    case Dispatching => 2
    case Running => 3
    case Aggregating => 4
    case _ => 5
  }

  /** The statuses a job is given in turn, each a legal transition from the one before. */
  ghost predicate LegalPath(from: JobStatus, path: seq<JobStatus>)
    decreases |path|
  {
    path != [] ==> ValidJob(from, path[0]) && LegalPath(path[0], path[1..])
  }

  function EndOf(from: JobStatus, path: seq<JobStatus>): JobStatus {
    if path == [] then from else path[|path| - 1]
  }

  lemma {:induction false} LegalPathAppend(from: JobStatus, path: seq<JobStatus>, next: JobStatus)
    requires LegalPath(from, path) && ValidJob(EndOf(from, path), next)
    ensures LegalPath(from, path + [next]) && EndOf(from, path + [next]) == next
    decreases |path|
  {
    if path != [] {
      LegalPathAppend(path[0], path[1..], next);
      assert (path + [next])[1..] == path[1..] + [next];
    }
  }

  /** Legal paths climb: each write raises the rank, so no job is ever written more than five times. */
  lemma {:induction false} LegalPathClimbs(from: JobStatus, path: seq<JobStatus>)
    requires LegalPath(from, path)
    ensures Rank(from) + |path| <= Rank(EndOf(from, path)) <= 5
    ensures TerminalJob(from) ==> path == []
    decreases |path|
  {
    if path != [] {
      LegalPathClimbs(path[0], path[1..]);
      assert Rank(from) < Rank(path[0]);
    }
  }

  /** Where a job may still go. */
  predicate Reaches(from: JobStatus, to: JobStatus) {
    from == to || (!TerminalJob(from) && Rank(from) < Rank(to))
  }

  /** That is exactly what legal paths reach. */
  lemma ReachesIffLegalPath(from: JobStatus, to: JobStatus)
    ensures Reaches(from, to) <==> exists path :: LegalPath(from, path) && EndOf(from, path) == to
  {
    if Reaches(from, to) {
      var path := PathTo(from, to);
    }
    if path :| LegalPath(from, path) && EndOf(from, path) == to {
      LegalPathClimbs(from, path);
    }
  }

  lemma {:induction false} PathTo(from: JobStatus, to: JobStatus) returns (path: seq<JobStatus>)
    requires Reaches(from, to)
    ensures LegalPath(from, path) && EndOf(from, path) == to
    decreases 5 - Rank(from)
  {
    if from == to {
      path := [];
    } else if ValidJob(from, to) {
      path := [to];
      assert path[1..] == [];
    } else {
      var next := match from
        case Queued => JobStatus.Preparing
        case Preparing => JobStatus.Dispatching
        case Dispatching => JobStatus.Running
        case _ => JobStatus.Aggregating;
      var rest := PathTo(next, to);
      path := [next] + rest;
      assert path[1..] == rest;
    }
  }

  // ---- The tables in words ----

  /** A job goes on to the next status, may be canceled always, fail once prepared, and time out once dispatched. */
  lemma JobMovesIff(from: JobStatus, to: JobStatus)
    ensures ValidJob(from, to) <==>
            && !TerminalJob(from)
            && (|| (!TerminalJob(to) && Rank(to) == Rank(from) + 1)
                || to == JobStatus.Canceled
                || (to == JobStatus.Failed && from != JobStatus.Queued)
                || (to == JobStatus.TimedOut && from != JobStatus.Queued && from != JobStatus.Preparing)
                || (to == JobStatus.Completed && from == JobStatus.Aggregating))
  {
  }

  /** How far a worker has come. */
  function WorkerRank(s: WorkerStatus): nat {
    match s
    case Created => 0
    case Starting => 1
    case Active => 2
    case Finishing => 3
    case _ => 4
  }

  /** A worker goes on to the next status, may be canceled always, and fail or be lost once it has been started. */
  lemma WorkerMovesIff(from: WorkerStatus, to: WorkerStatus)
    ensures ValidWorker(from, to) <==>
            && !TerminalWorker(from)
            && (|| (!TerminalWorker(to) && WorkerRank(to) == WorkerRank(from) + 1)
                || to == WorkerStatus.Canceled
                || ((to == WorkerStatus.Failed || to == WorkerStatus.Lost) && from != WorkerStatus.Created)
                || (to == WorkerStatus.Finished && from == WorkerStatus.Finishing))
  {
  }

  /** A session moves freely until it is closed, but never back to its beginning, and is active only after an attach. */
  lemma SessionMovesIff(from: SessionStatus, to: SessionStatus)
    ensures ValidSession(from, to) <==>
            && from != SessionStatus.Closed && to != SessionStatus.Uninitialized && to != from
            && !(from == SessionStatus.Uninitialized && to == SessionStatus.Active)
  {
  }

  /** The statuses a worker is given in turn, each a legal transition from the one before. */
  ghost predicate WorkerPath(from: WorkerStatus, path: seq<WorkerStatus>)
    decreases |path|
  {
    path != [] ==> ValidWorker(from, path[0]) && WorkerPath(path[0], path[1..])
  }

  function WorkerEnd(from: WorkerStatus, path: seq<WorkerStatus>): WorkerStatus {
    if path == [] then from else path[|path| - 1]
  }

  lemma {:induction false} WorkerPathClimbs(from: WorkerStatus, path: seq<WorkerStatus>)
    requires WorkerPath(from, path)
    ensures WorkerRank(from) + |path| <= WorkerRank(WorkerEnd(from, path)) <= 4
    decreases |path|
  {
    if path != [] {
      WorkerPathClimbs(path[0], path[1..]);
    }
  }

  /** A worker can come from one status to another by legal transitions, or stay. */
  ghost predicate WorkerReaches(from: WorkerStatus, to: WorkerStatus) {
    exists path :: WorkerPath(from, path) && WorkerEnd(from, path) == to
  }

  lemma ReachesByPath(from: WorkerStatus, path: seq<WorkerStatus>)
    requires WorkerPath(from, path)
    ensures WorkerReaches(from, WorkerEnd(from, path))
  {
  }

  /** Who can still become active, or is. */
  lemma ReachesActiveIff(s: WorkerStatus)
    ensures WorkerReaches(s, WorkerStatus.Active) <==> WorkerRank(s) <= 2
  {
    var empty: seq<WorkerStatus> := [];
    var one, two := [WorkerStatus.Active], [WorkerStatus.Starting, WorkerStatus.Active];
    assert one[1..] == empty && two[1..] == one;
    match s {
      case Created => ReachesByPath(s, two);
      case Starting => ReachesByPath(s, one);
      case Active => ReachesByPath(s, empty);
      case _ =>
        forall path | WorkerPath(s, path) ensures WorkerEnd(s, path) != WorkerStatus.Active {
          WorkerPathClimbs(s, path);
        }
    }
  }

  /** Who may have been starting at some time and not ended since. */
  lemma ReachedFromStarting(s: WorkerStatus)
    ensures WorkerReaches(WorkerStatus.Starting, s) ==> WorkerRank(s) >= 1
    ensures s.Starting? || s.Active? ==> WorkerReaches(WorkerStatus.Starting, s)
  {
    var empty: seq<WorkerStatus> := [];
    var one := [WorkerStatus.Active];
    assert one[1..] == empty;
    if s.Starting? {
      ReachesByPath(WorkerStatus.Starting, empty);
    } else if s.Active? {
      ReachesByPath(WorkerStatus.Starting, one);
    }
    forall path | WorkerPath(WorkerStatus.Starting, path) && WorkerEnd(WorkerStatus.Starting, path) == s
      ensures WorkerRank(s) >= 1
    {
      WorkerPathClimbs(WorkerStatus.Starting, path);
    }
  }
}
