/** Capacity and write-conflict policies (src/scheduler/policies.ts) and the worker sets they count. */
module Policies {
  import opened StateMachine
  import opened Models

  /** `canDispatchJob`: one worker more stays within the limit. */
  predicate CanDispatch(activeWorkerCount: int, maxWorkers: int): (can: bool)
    ensures can <==> activeWorkerCount + 1 <= maxWorkers
  {
    activeWorkerCount < maxWorkers
  }

  predicate Writing(w: Worker, repoPath: string) {
    w.repoPath == repoPath && w.writeCapable && (w.status.Starting? || w.status.Active?)
  }

  function WritersIn(workers: map<WorkerId, Worker>, repoPath: string): set<WorkerId> {
    set w | w in workers && Writing(workers[w], repoPath)
  }

  /** `hasWriteConflict`: only jobs isolated in a worktree write, so only they conflict. */
  predicate HasWriteConflict(isolationMode: IsolationMode, repoPath: string, workers: map<WorkerId, Worker>,
      maxWriteWorkersPerRepo: int) {
    isolationMode == Worktree && |WritersIn(workers, repoPath)| >= maxWriteWorkersPerRepo
  }

  function ActiveIn(workers: map<WorkerId, Worker>): set<WorkerId> {
    set w | w in workers && workers[w].status == WorkerStatus.Active
  }

  function ActiveWritersIn(workers: map<WorkerId, Worker>, repoPath: string): set<WorkerId> {
    set w | w in workers && workers[w].status == WorkerStatus.Active && Writing(workers[w], repoPath)
  }

  function SchedulableIn(workers: map<WorkerId, Worker>): set<WorkerId> {
    set w | w in workers && Schedulable(workers[w].status)
  }

  function SchedulableOf(workers: map<WorkerId, Worker>, jobId: JobId): set<WorkerId> {
    set w | w in workers && workers[w].jobId == jobId && Schedulable(workers[w].status)
  }

  function WorkersOf(workers: map<WorkerId, Worker>, jobId: JobId): set<WorkerId> {
    set w | w in workers && workers[w].jobId == jobId
  }

  lemma Overwritten<K, V>(m: map<K, V>, k: K, a: V, b: V)
    ensures m[k := a][k := b] == m[k := b]
  {
  }

  lemma SubsetSize<T>(a: set<T>, b: set<T>)
    requires a <= b
    ensures |a| <= |b|
  {
    assert b == a + (b - a);
    assert |a + (b - a)| == |a| + |b - a|;
  }

  /** More workers never clear a conflict. */
  lemma ConflictPersists(isolationMode: IsolationMode, repoPath: string, a: map<WorkerId, Worker>, b: map<WorkerId,
      Worker>, cap: int)
    requires HasWriteConflict(isolationMode, repoPath, a, cap)
    requires forall w :: w in a ==> w in b && b[w] == a[w]
    ensures HasWriteConflict(isolationMode, repoPath, b, cap)
  {
    SubsetSize(WritersIn(a, repoPath), WritersIn(b, repoPath));
  }

  /** A worker writes exactly if it may, in its repository, from its start until its activity ends. */
  lemma WritingIff(w: Worker, repoPath: string)
    ensures Writing(w, repoPath) <==>
            && w.repoPath == repoPath && w.writeCapable
            && WorkerReaches(WorkerStatus.Starting, w.status) && WorkerReaches(w.status, WorkerStatus.Active)
  {
    ReachesActiveIff(w.status);
    ReachedFromStarting(w.status);
  }

  /** A job conflicts exactly if it is isolated in a worktree and one writer more would exceed the limit. */
  lemma ConflictIff(isolationMode: IsolationMode, workers: map<WorkerId, Worker>, cap: int, w: Worker)
    requires w.workerId !in workers && w.writeCapable && w.status == WorkerStatus.Active
    ensures HasWriteConflict(isolationMode, w.repoPath, workers, cap) <==>
            isolationMode == Worktree && |WritersIn(workers[w.workerId := w], w.repoPath)| > cap
  {
    assert WritersIn(workers[w.workerId := w], w.repoPath) == WritersIn(workers, w.repoPath) + {w.workerId};
  }

  /** A worker that comes to the end of its activity gives back one place, in all and for its job, and one writer's. */
  lemma FinishingFreesPlace(workers: map<WorkerId, Worker>, w: WorkerId)
    requires w in workers && workers[w].status == WorkerStatus.Active
    ensures var after := workers[w := workers[w].(status := WorkerStatus.Finishing)];
      && |SchedulableIn(after)| == |SchedulableIn(workers)| - 1
      && |SchedulableOf(after, workers[w].jobId)| == |SchedulableOf(workers, workers[w].jobId)| - 1
      && (forall j :: j != workers[w].jobId ==> SchedulableOf(after, j) == SchedulableOf(workers, j))
      && (workers[w].writeCapable ==>
            |WritersIn(after, workers[w].repoPath)| == |WritersIn(workers, workers[w].repoPath)| - 1)
  {
    var after := workers[w := workers[w].(status := WorkerStatus.Finishing)];
    assert SchedulableIn(workers) == SchedulableIn(after) + {w};
    assert SchedulableOf(workers, workers[w].jobId) == SchedulableOf(after, workers[w].jobId) + {w};
    if workers[w].writeCapable {
      assert WritersIn(workers, workers[w].repoPath) == WritersIn(after, workers[w].repoPath) + {w};
    }
  }
}
