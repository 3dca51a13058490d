/** Job and worker records (src/core/models.ts), with the fields the other modules read. Ids are numbers. */
module Models {
  import opened StateMachine

  type JobId = nat
  type WorkerId = nat

  datatype Priority = Low | Normal | High

  datatype IsolationMode = NoIsolation | SameDir | Worktree

  datatype Job = Job(
    jobId: JobId, status: JobStatus, priority: Priority, repoPath: string, isolationMode: IsolationMode,
    maxWorkers: int, workerIds: seq<WorkerId>, metadata: map<string, string>)

  datatype Worker = Worker(
    workerId: WorkerId, jobId: JobId, status: WorkerStatus, repoPath: string, writeCapable: bool,
    timedOut: bool)

  function Weight(p: Priority): int {
    match p
    case Low => 0
    case Normal => 1
    case High => 2
  }

  /** `isSchedulableWorker`. */
  predicate Schedulable(s: WorkerStatus) {
    s.Created? || s.Starting? || s.Active?
  }

  /** A worker takes a place exactly while it is active or can still become so. */
  lemma SchedulableIff(s: WorkerStatus)
    ensures Schedulable(s) <==> WorkerReaches(s, WorkerStatus.Active)
  {
    ReachesActiveIff(s);
  }
}
