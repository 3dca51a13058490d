/**
 One dispatch pass over the queue (src/scheduler/scheduler.ts) with the parts of the worker manager it runs:
 creating and starting workers, aggregating a job, and handling a failed dispatch.

 What the outside world does (directories, worktrees, runtimes, event log) is an outcome chosen freely; every
 property below holds for all of them. The store is a pair of maps; ids are numbers above all earlier ones.
 */
module Scheduling {
  import opened Wrappers
  import opened StateMachine
  import opened Models
  import opened Policies
  import opened DispatchView
  import opened JobLifecycle
  import QueueSpec
  import QueueListing
  import Retry
  import Decimal

  /**
   How `createWorker` ends: without a trace, leaving a record of the worker, leaving it listed in the job, or well.
   */
  datatype CreateOutcome = CreateFails | CreateFailsLeavingWorker | CreateFailsAfterJobUpdate | CreateSucceeds

  /** How `startWorker` ends. */
  datatype StartOutcome = WorktreeFails | RuntimeFails | RuntimeFailsLate | StartSucceeds

  /** What the passes need to know about worker `w` and its result. */
  function ResultOf(workers: map<WorkerId, Worker>, results: map<WorkerId, Execution>, w: WorkerId): Execution
    requires w in workers
  {
    if w in results then results[w]
    else
      match workers[w].status
      case Canceled => Execution.Canceled
      case Finished => if workers[w].timedOut then Execution.TimedOut else Execution.Completed
      case _ => if workers[w].timedOut then Execution.TimedOut else Execution.Failed
  }

  predicate AllSettled(jobId: JobId, listed: nat, workers: map<WorkerId, Worker>) {
    && WorkersOf(workers, jobId) != {} && |WorkersOf(workers, jobId)| >= listed
    && forall w :: w in WorkersOf(workers, jobId) ==> TerminalWorker(workers[w].status)
  }

  predicate ReadyToAggregate(job: Job, workers: map<WorkerId, Worker>) {
    !TerminalJob(job.status) && AllSettled(job.jobId, |job.workerIds|, workers)
  }

  /** The terminal status aggregation gives: the worst of the workers' results. */
  function AggregatedStatus(jobId: JobId, workers: map<WorkerId, Worker>, results: map<WorkerId,
      Execution>): JobStatus {
    WorstStatus(set w | w in WorkersOf(workers, jobId) :: ResultOf(workers, results, w))
  }

  /** A worker's result says it completed: the one recorded, or else what its status tells. */
  predicate SaysCompleted(workers: map<WorkerId, Worker>, results: map<WorkerId, Execution>, w: WorkerId)
    requires w in workers
  {
    if w in results then results[w] == Execution.Completed
    else workers[w].status == WorkerStatus.Finished && !workers[w].timedOut
  }

  /** A worker's result says it was canceled. */
  predicate SaysCanceled(workers: map<WorkerId, Worker>, results: map<WorkerId, Execution>, w: WorkerId)
    requires w in workers
  {
    if w in results then results[w] == Execution.Canceled else workers[w].status == WorkerStatus.Canceled
  }

  /**
   A job is closed as completed if all its workers say so, as canceled if none says anything worse than that it was
   canceled, and as failed if one does.
   */
  lemma AggregationMeans(jobId: JobId, workers: map<WorkerId, Worker>, results: map<WorkerId, Execution>)
    ensures
      var own := set w | w in workers && workers[w].jobId == jobId;
      var status := AggregatedStatus(jobId, workers, results);
      && (status == JobStatus.Completed <==> forall w :: w in own ==> SaysCompleted(workers, results, w))
      && (status == JobStatus.Failed <==>
            exists w :: w in own && !SaysCompleted(workers, results, w) && !SaysCanceled(workers, results, w))
      && (status == JobStatus.Completed || status == JobStatus.Failed || status == JobStatus.Canceled)
  {
    var own := WorkersOf(workers, jobId);
    assert own == set w | w in workers && workers[w].jobId == jobId;
    var outcomes := set w | w in own :: ResultOf(workers, results, w);
    forall w | w in own
      ensures ResultOf(workers, results, w) in outcomes
      ensures SaysCompleted(workers, results, w) <==> ResultOf(workers, results, w) == Execution.Completed
      ensures SaysCanceled(workers, results, w) <==> ResultOf(workers, results, w) == Execution.Canceled
    {
    }
  }

  /** The failure handler meets an illegal transition exactly here. */
  predicate FailureRaises(status: JobStatus, retry: bool) {
    || status == JobStatus.Queued
    || (retry && (status.Completed? || status.Canceled? || status.TimedOut?))
  }

  predicate WillRetry(job: Job, defaultMaxRetries: int) {
    Retry.ShouldRetry(job.metadata, Retry.RetryCount(job.metadata) + 1, defaultMaxRetries)
  }

  /** The clone a retry makes of a job. */
  function RetryClone(job: Job, jobId: JobId): Job {
    job.(jobId := jobId, status := JobStatus.Queued, workerIds := [],
         metadata := Retry.RetryMetadata(job.metadata, Decimal.Print(job.jobId)))
  }

  /**
   The clone asks for the same, under its own id, and starts from the queue without workers; its metadata is the job's
   but for where it comes from and for the counter.
   */
  lemma RetryCloneMeans(job: Job, jobId: JobId)
    ensures
      var clone := RetryClone(job, jobId);
      && clone.jobId == jobId && clone.status == JobStatus.Queued && clone.workerIds == []
      && SameRequest(job, clone.(jobId := job.jobId, metadata := job.metadata))
      && clone.metadata - {"retriedFromJobId", "retryCount"} == job.metadata - {"retriedFromJobId", "retryCount"}
      && "retriedFromJobId" in clone.metadata && clone.metadata["retriedFromJobId"] == Decimal.Print(job.jobId)
      && Retry.RetryCount(clone.metadata) == Retry.RetryCount(job.metadata) + 1
  {
    Retry.RetryMetadataCounts(job.metadata, Decimal.Print(job.jobId), 0);
  }

  /** A job that fails is cloned exactly while its counter is below its limit. */
  lemma WillRetryIff(job: Job, defaultMaxRetries: int)
    ensures WillRetry(job, defaultMaxRetries) <==>
            Retry.RetryCount(job.metadata) < Retry.MaxRetries(job.metadata, defaultMaxRetries)
  {
  }

  /** The jobs with `job` failed, unless it already is terminal. */
  function WithFailed(jobs: map<JobId, Job>, job: Job): map<JobId, Job> {
    if Linear(job.status) then jobs[job.jobId := job.(status := JobStatus.Failed)] else jobs
  }

  /** The status a start leaves its worker in. */
  function StartedAs(outcome: StartOutcome, worker: Worker, job: Job): WorkerStatus {
    if outcome == WorktreeFails && worker.writeCapable && job.isolationMode == Worktree then WorkerStatus.Starting
    else if outcome.RuntimeFails? || outcome.RuntimeFailsLate? then WorkerStatus.Failed
    else WorkerStatus.Active
  }

  /** How far a start moves the job before it succeeds or fails. */
  function JobReached(outcome: StartOutcome, worker: Worker, job: Job): JobStatus {
    Destination(job.status,
                if StartedAs(outcome, worker, job) == WorkerStatus.Starting || outcome == RuntimeFails
                then JobStatus.Dispatching else JobStatus.Running)
  }

  /** The job after a start: as far as it got, or closed as failed if that was the last of its workers. */
  function JobAfterStart(outcome: StartOutcome, worker: Worker, job: Job, workers: map<WorkerId, Worker>): Job {
    var reached := job.(status := JobReached(outcome, worker, job));
    var last := StartedAs(outcome, worker, job).Failed? && ReadyToAggregate(reached, workers);
    if last then reached.(status := JobStatus.Failed) else reached
  }

  /** The worker and its job are there, and the worker is as it was created. */
  predicate CanStart(w: WorkerId, jobs: map<JobId, Job>, workers: map<WorkerId, Worker>) {
    w in workers && workers[w].jobId in jobs && workers[w].status == WorkerStatus.Created
  }

  /** What a start makes of worker, result and job. */
  ghost predicate StartOf(worker: Worker, job: Job, outcome: StartOutcome, jobs: map<JobId, Job>,
      workers: map<WorkerId, Worker>, results: map<WorkerId, Execution>, jobs': map<JobId, Job>,
      workers': map<WorkerId, Worker>, results': map<WorkerId, Execution>) {
    && workers' == workers[worker.workerId := worker.(status := StartedAs(outcome, worker, job))]
    && results' == (if StartedAs(outcome, worker, job).Failed? then results[worker.workerId := Execution.Failed]
                    else results)
    && jobs' == jobs[job.jobId := JobAfterStart(outcome, worker, job, workers')]
  }

  /**
   What a start comes to. The worker is left starting exactly if it needs a worktree that cannot be made, and fails
   exactly if its runtime does; it has become active otherwise. The job has come to dispatching at least, and to running
   unless it was stopped before, but has failed if the worker was the last of its workers and failed too.
   */
  lemma StartMeans(outcome: StartOutcome, worker: Worker, job: Job, workers: map<WorkerId, Worker>)
    requires Linear(job.status)
    ensures
      var status := StartedAs(outcome, worker, job);
      var after := JobAfterStart(outcome, worker, job, workers);
      var noWorktree := outcome == WorktreeFails && worker.writeCapable && job.isolationMode == Worktree;
      var own := set w | w in workers && workers[w].jobId == job.jobId;
      var last := own != {} && |own| >= |job.workerIds| && forall w :: w in own ==> TerminalWorker(workers[w].status);
      var reached := if noWorktree || outcome == RuntimeFails then Rank(JobStatus.Dispatching)
          else Rank(JobStatus.Running);
      && (status == WorkerStatus.Starting <==> noWorktree)
      && (status == WorkerStatus.Failed <==> outcome == RuntimeFails || outcome == RuntimeFailsLate)
      && (status == WorkerStatus.Active <==> outcome == StartSucceeds || (outcome == WorktreeFails && !noWorktree))
      && after == job.(status := after.status)
      && (after.status == JobStatus.Failed <==> status == WorkerStatus.Failed && last)
      && (after.status != JobStatus.Failed ==>
            !TerminalJob(after.status)
            && Rank(after.status) == if Rank(job.status) > reached then Rank(job.status) else reached)
  {
    assert WorkersOf(workers, job.jobId) == set w | w in workers && workers[w].jobId == job.jobId;
  }

  /** Past the worktree, the start is decided by the runtime. */
  lemma PastWorktree(outcome: StartOutcome, worker: Worker, job: Job, workers: map<WorkerId, Worker>)
    requires Linear(job.status) && !(worker.writeCapable && job.isolationMode == Worktree && outcome == WorktreeFails)
    ensures StartedAs(outcome, worker, job) ==
            if outcome.RuntimeFails? || outcome.RuntimeFailsLate? then WorkerStatus.Failed else WorkerStatus.Active
    ensures var dispatching := job.(status := Destination(job.status, JobStatus.Dispatching));
      var reached := if outcome.RuntimeFails? then dispatching
          else dispatching.(status := Destination(dispatching.status, JobStatus.Running));
      JobAfterStart(outcome, worker, job, workers) ==
        if (outcome.RuntimeFails? || outcome.RuntimeFailsLate?) && ReadyToAggregate(reached, workers)
        then reached.(status := JobStatus.Failed) else reached
  {
  }

  /** A start moves its job forward, or closes it as failed; a worker that became active leaves it running or later. */
  lemma JobAfterStartMoves(outcome: StartOutcome, worker: Worker, job: Job, workers: map<WorkerId, Worker>)
    requires Linear(job.status)
    ensures var after := JobAfterStart(outcome, worker, job, workers);
      && SameRequest(job, after) && Reaches(job.status, after.status)
      && (TerminalJob(after.status) ==>
           after.status == JobStatus.Failed && StartedAs(outcome, worker, job) != WorkerStatus.Active)
      && (StartedAs(outcome, worker, job) == WorkerStatus.Active ==>
           after.status == Destination(job.status, JobStatus.Running))
  {
  }

  lemma StaysUnderWay(status: JobStatus)
    requires Linear(status)
    ensures Linear(Destination(status, JobStatus.Running)) && Destination(status, JobStatus.Running) != JobStatus.Queued
  {
  }

  /** Everything about a job but its progress. */
  predicate SameRequest(a: Job, b: Job) {
    && a.jobId == b.jobId && a.priority == b.priority && a.repoPath == b.repoPath
    && a.isolationMode == b.isolationMode && a.maxWorkers == b.maxWorkers && a.metadata == b.metadata
  }

  /** The same job further on: a job that ends in a pass has failed. */
  predicate MovedOn(before: Job, after: Job) {
    && SameRequest(before, after) && Reaches(before.status, after.status)
    && (TerminalJob(after.status) ==> after.status == before.status || after.status == JobStatus.Failed)
  }

  /** Only job `jobId` moved, forward; jobs that are new are queued clones waiting for a timer. */
  ghost predicate OnlyJobMoved(before: map<JobId, Job>, after: map<JobId, Job>, jobId: JobId, timers: seq<Job>,
      idsFrom: JobId) {
    && (forall j :: j in before && j != jobId ==> j in after && after[j] == before[j])
    && (jobId in before ==> jobId in after && MovedOn(before[jobId], after[jobId]))
    && (forall j :: j in after && j !in before ==>
          j >= idsFrom && after[j].status == JobStatus.Queued && after[j] in timers)
  }

  lemma OnlyJobMovedTwice(a: map<JobId, Job>, b: map<JobId, Job>, c: map<JobId, Job>, jobId: JobId, early: seq<Job>,
      late: seq<Job>,
                          idsFrom: JobId, idsFrom': JobId)
    requires OnlyJobMoved(a, b, jobId, early, idsFrom) && OnlyJobMoved(b, c, jobId, late, idsFrom')
    requires early <= late && jobId in a && idsFrom <= idsFrom'
    ensures OnlyJobMoved(a, c, jobId, late, idsFrom)
  {
    forall j | j in c && j !in a ensures j >= idsFrom && c[j].status == JobStatus.Queued && c[j] in late {
      if j in b {
        assert b[j] in early;
      }
    }
  }

  /** All workers that are new belong to job `jobId`. */
  ghost predicate NewWorkersFor(before: Workers, after: Workers, jobId: JobId) {
    Extends(before, after) && forall w :: w in after && w !in before ==> after[w].jobId == jobId
  }

  lemma NewWorkersTwice(a: Workers, b: Workers, c: Workers, jobId: JobId)
    requires NewWorkersFor(a, b, jobId) && NewWorkersFor(b, c, jobId)
    ensures NewWorkersFor(a, c, jobId)
  {
  }

  lemma ExtendsTwice(a: Workers, b: Workers, c: Workers)
    requires Extends(a, b) && Extends(b, c)
    ensures Extends(a, c)
  {
  }

  /** The job needs no more workers, or may not have any: it is closed, full, or its repository is being written. */
  predicate Served(job: Job, workers: Workers, view: Workers, maxWriters: int) {
    || TerminalJob(job.status)
    || |SchedulableOf(workers, job.jobId)| >= job.maxWorkers
    || HasWriteConflict(job.isolationMode, job.repoPath, view, maxWriters)
  }

  /** The job is under way and may take more workers: the condition for standing in the queue. */
  predicate Waiting(jobs: map<JobId, Job>, workers: Workers, jobId: JobId) {
    jobId in jobs && !TerminalJob(jobs[jobId].status) && |SchedulableOf(workers, jobId)| < jobs[jobId].maxWorkers
  }

  /** A job waits exactly if it is under way and one active worker more would not exceed its limit. */
  lemma WaitingIff(jobs: map<JobId, Job>, workers: Workers, w: Worker)
    requires w.workerId !in workers && w.status == WorkerStatus.Active
    ensures Waiting(jobs, workers, w.jobId) <==>
            && w.jobId in jobs && !TerminalJob(jobs[w.jobId].status)
            && |SchedulableOf(workers[w.workerId := w], w.jobId)| <= jobs[w.jobId].maxWorkers
  {
    SchedulableAfterAdding(workers, w, w.jobId);
  }

  /** It is served exactly if it is closed, or if such a worker would exceed that limit or the repository's writers. */
  lemma ServedIff(job: Job, workers: Workers, view: Workers, maxWriters: int, w: Worker)
    requires w.workerId !in workers && w.workerId !in view && w.status == WorkerStatus.Active && w.writeCapable
    requires w.jobId == job.jobId && w.repoPath == job.repoPath
    ensures Served(job, workers, view, maxWriters) <==>
            || TerminalJob(job.status)
            || |SchedulableOf(workers[w.workerId := w], job.jobId)| > job.maxWorkers
            || (job.isolationMode == Worktree && |WritersIn(view[w.workerId := w], job.repoPath)| > maxWriters)
  {
    SchedulableAfterAdding(workers, w, w.jobId);
    ConflictIff(job.isolationMode, view, maxWriters, w);
  }

  /** The pass has dealt with the job: it is queued exactly if it waits, and it waits for a reason. */
  ghost predicate Settled(jobId: JobId, jobs: map<JobId, Job>, workers: Workers, queue: seq<Job>, view: Workers,
                          maxActive: int, maxWriters: int) {
    && (QueueSpec.Holds(queue, jobId) <==> Waiting(jobs, workers, jobId))
    && (jobId !in jobs || Served(jobs[jobId], workers, view, maxWriters) || !CanDispatch(|view|, maxActive))
  }

  lemma OtherJobsWorkers(before: Workers, after: Workers, jobId: JobId, other: JobId)
    requires NewWorkersFor(before, after, jobId) && other != jobId
    ensures SchedulableOf(after, other) == SchedulableOf(before, other)
  {
  }

  lemma ServedPersists(job: Job, before: Workers, after: Workers, view: Workers, view': Workers, jobId: JobId,
      maxWriters: int)
    requires Served(job, before, view, maxWriters) && NewWorkersFor(before, after, jobId) && job.jobId != jobId
    requires Extends(view, view')
    ensures Served(job, after, view', maxWriters)
  {
    OtherJobsWorkers(before, after, jobId, job.jobId);
    if HasWriteConflict(job.isolationMode, job.repoPath, view, maxWriters) {
      ConflictPersists(job.isolationMode, job.repoPath, view, view', maxWriters);
    }
  }

  /** Dealing with one job leaves the jobs dealt with before as they are. */
  lemma SettledPersists(other: JobId, jobId: JobId, jobs: map<JobId, Job>, jobs': map<JobId, Job>, timers: seq<Job>,
                        workers: Workers, workers': Workers, queue: seq<Job>, queue': seq<Job>, view: Workers,
                        view': Workers,
                        maxActive: int, maxWriters: int, idsFrom: JobId)
    requires Settled(other, jobs, workers, queue, view, maxActive, maxWriters) && other != jobId
    requires other in jobs ==> jobs[other].jobId == other
    requires OnlyJobMoved(jobs, jobs', jobId, timers, idsFrom) && other < idsFrom
    requires NewWorkersFor(workers, workers', jobId) && Extends(view, view')
    requires QueueSpec.Holds(queue', other) <==> QueueSpec.Holds(queue, other)
    ensures Settled(other, jobs', workers', queue', view', maxActive, maxWriters)
  {
    OtherJobsWorkers(workers, workers', jobId, other);
    SubsetSize(view.Keys, view'.Keys);
    if other in jobs && Served(jobs[other], workers, view, maxWriters) {
      ServedPersists(jobs[other], workers, workers', view, view', jobId, maxWriters);
    }
  }

  /** Jobs keep what was asked and move forward only; new jobs are queued clones waiting for a timer. */
  ghost predicate JobsProgress(before: map<JobId, Job>, after: map<JobId, Job>, timers: seq<Job>, idsFrom: JobId) {
    && (forall j :: j in before ==> j in after && MovedOn(before[j], after[j]))
    && (forall j :: j in after && j !in before ==>
          j >= idsFrom && after[j].status == JobStatus.Queued && after[j] in timers)
  }

  lemma JobsProgressStep(a: map<JobId, Job>, b: map<JobId, Job>, c: map<JobId, Job>, jobId: JobId, early: seq<Job>,
      late: seq<Job>,
                         idsFrom: JobId, idsFrom': JobId)
    requires JobsProgress(a, b, early, idsFrom) && OnlyJobMoved(b, c, jobId, late, idsFrom') && early <= late
    requires idsFrom <= idsFrom' && jobId < idsFrom
    ensures JobsProgress(a, c, late, idsFrom)
  {
    forall j | j in a ensures j in c && MovedOn(a[j], c[j]) {
      assert j == jobId || c[j] == b[j];
    }
    forall j | j in c && j !in a ensures j >= idsFrom && c[j].status == JobStatus.Queued && c[j] in late {
      if j in b {
        assert c[j] == b[j];
        assert b[j] in early;
      }
    }
  }

  /** Each job's workers stay within its own limit, unless the pass gave it none. */
  ghost predicate WithinJobLimits(jobs: map<JobId, Job>, start: Workers, workers: Workers) {
    forall j :: j in jobs ==>
      |SchedulableOf(workers, j)| <= jobs[j].maxWorkers || SchedulableOf(workers, j) == SchedulableOf(start, j)
  }

  lemma WithinJobLimitsStep(jobs: map<JobId, Job>, jobs': map<JobId, Job>, start: Workers, workers: Workers,
      workers': Workers, jobId: JobId)
    requires WithinJobLimits(jobs, start, workers) && NewWorkersFor(workers, workers', jobId)
    requires jobId in jobs' ==>
      |SchedulableOf(workers', jobId)| <= jobs'[jobId].maxWorkers
          || SchedulableOf(workers', jobId) == SchedulableOf(workers, jobId)
    requires jobId in jobs ==> jobId in jobs' && jobs'[jobId].maxWorkers == jobs[jobId].maxWorkers
    ensures WithinJobLimits(jobs, start, workers')
  {
    forall j | j in jobs
      ensures |SchedulableOf(workers', j)| <= jobs[j].maxWorkers
              || SchedulableOf(workers', j) == SchedulableOf(start, j)
    {
      if j != jobId {
        OtherJobsWorkers(workers, workers', jobId, j);
      }
    }
  }

  /** The pass has given this job a worker. */
  ghost predicate GotWorker(start: Workers, workers: Workers, jobId: JobId) {
    exists w :: w in workers && w !in start && workers[w].jobId == jobId
  }

  /** Nobody was served out of turn: a job that got a worker found every job before it served. */
  ghost predicate InTurn(snapshot: seq<Job>, i: nat, jobs: map<JobId, Job>, start: Workers, workers: Workers,
      view: Workers, maxWriters: int)
    requires i <= |snapshot|
  {
    forall a, b :: 0 <= a < b < i && GotWorker(start, workers, snapshot[b].jobId) ==>
      snapshot[a].jobId !in jobs || Served(jobs[snapshot[a].jobId], workers, view, maxWriters)
  }

  lemma InTurnStep(snapshot: seq<Job>, i: nat, jobs: map<JobId, Job>, jobs': map<JobId, Job>, timers: seq<Job>,
      idsFrom: JobId,
                   start: Workers, workers: Workers, workers': Workers, view: Workers, view': Workers,
                   maxActive: int, maxWriters: int)
    requires i < |snapshot| && QueueSpec.OnePerId(snapshot)
             && InTurn(snapshot, i, jobs, start, workers, view, maxWriters)
    requires OnlyJobMoved(jobs, jobs', snapshot[i].jobId, timers, idsFrom)
             && NewWorkersFor(workers, workers', snapshot[i].jobId)
    requires Extends(start, workers) && Extends(view, view')
    requires forall k :: 0 <= k < |snapshot| ==> snapshot[k].jobId < idsFrom
    requires forall j :: j in jobs ==> jobs[j].jobId == j
    requires !CanDispatch(|view|, maxActive) ==> workers' == workers
    requires forall a :: 0 <= a < i ==>
      snapshot[a].jobId !in jobs || Served(jobs[snapshot[a].jobId], workers, view, maxWriters)
          || !CanDispatch(|view|, maxActive)
    requires NewWorkersAreForThese(snapshot, i, start, workers)
    ensures InTurn(snapshot, i + 1, jobs', start, workers', view', maxWriters)
  {
    forall w | w in workers && w !in start ensures workers[w].jobId != snapshot[i].jobId {
      var k :| 0 <= k < i && snapshot[k].jobId == workers[w].jobId;
      assert snapshot[k].jobId != snapshot[i].jobId;
    }
    forall a, b | 0 <= a < b < i + 1 && GotWorker(start, workers', snapshot[b].jobId)
      ensures snapshot[a].jobId !in jobs' || Served(jobs'[snapshot[a].jobId], workers', view', maxWriters)
    {
      var w :| w in workers' && w !in start && workers'[w].jobId == snapshot[b].jobId;
      assert snapshot[a].jobId != snapshot[i].jobId;
      if b < i {
        assert snapshot[b].jobId != snapshot[i].jobId;
        assert w in workers && GotWorker(start, workers, snapshot[b].jobId);
      } else {
        assert w !in workers;
      }
      if snapshot[a].jobId in jobs {
        ServedPersists(jobs[snapshot[a].jobId], workers, workers', view, view', snapshot[i].jobId, maxWriters);
      }
    }
  }

  ghost predicate NewWorkersAreForThese(snapshot: seq<Job>, i: nat, start: Workers, workers: Workers)
    requires i <= |snapshot|
  {
    forall w :: w in workers && w !in start ==> exists k :: 0 <= k < i && snapshot[k].jobId == workers[w].jobId
  }

  lemma NewWorkersFromSnapshot(snapshot: seq<Job>, i: nat, start: Workers, workers: Workers, workers': Workers)
    requires i < |snapshot| && NewWorkersAreForThese(snapshot, i, start, workers)
    requires NewWorkersFor(workers, workers', snapshot[i].jobId)
    ensures NewWorkersAreForThese(snapshot, i + 1, start, workers')
  {
    forall w | w in workers' && w !in start
      ensures exists k :: 0 <= k < i + 1 && snapshot[k].jobId == workers'[w].jobId
    {
      if w in workers {
        var k :| 0 <= k < i && snapshot[k].jobId == workers[w].jobId;
      } else {
        assert snapshot[i].jobId == workers'[w].jobId;
      }
    }
  }

  /** Jobs that were not queued are as they were, stay out of the queue and get no workers. */
  ghost predicate OnlyQueuedTouched(queue0: seq<Job>, queue: seq<Job>, before: map<JobId, Job>, after: map<JobId,
      Job>, start: Workers, workers: Workers) {
    && (forall k :: QueueSpec.Holds(queue, k) ==> QueueSpec.Holds(queue0, k))
    && (forall j :: j in before && !QueueSpec.Holds(queue0, j) ==> j in after && after[j] == before[j])
    && (forall w :: w in workers && w !in start ==> QueueSpec.Holds(queue0, workers[w].jobId))
  }

  /** Schedulable workers exceed the limit, or what was there before, at most by those the pass left idle. */
  ghost predicate ExceededByIdleOnly(start: Workers, workers: Workers, maxActive: int) {
    var found := |SchedulableIn(start)|;
    |SchedulableIn(workers)| <= (if found > maxActive then found else maxActive) + |LeftIdle(start, workers)|
  }

  /** A pass leaves the store's workers as they were, with some made one after another, each when there was room. */
  ghost predicate PassMakes(start: Workers, workers: Workers, maxActive: int, maxWriters: int) {
    exists made :: MadeInTurn(start, made, maxActive, maxWriters) && WithMade(start, made) == workers
  }

  /** What a pass set out from: the store, and the listing of the queue. */
  datatype Origin = Origin(snapshot: seq<Job>, jobs: map<JobId, Job>, workers: Workers, timers: seq<Job>,
      nextJobId: JobId)

  /** The store and the pass's list at one moment of a pass. */
  datatype Moment = Moment(jobs: map<JobId, Job>, workers: Workers, queue: seq<Job>, timers: seq<Job>,
      nextJobId: JobId, view: Workers)

  /** The first `i` jobs of the snapshot are dealt with, the others still stand in the queue. */
  ghost predicate Places(o: Origin, i: nat, m: Moment, maxActive: int, maxWriters: int) {
    && i <= |o.snapshot|
    && (forall k :: 0 <= k < i ==>
          Settled(o.snapshot[k].jobId, m.jobs, m.workers, m.queue, m.view, maxActive, maxWriters))
    && (forall k :: i <= k < |o.snapshot| ==> QueueSpec.Holds(m.queue, o.snapshot[k].jobId))
  }

  /** What has happened since the pass set out. */
  ghost predicate Progress(o: Origin, i: nat, m: Moment, maxActive: int, maxWriters: int)
    requires i <= |o.snapshot|
  {
    && QueueSpec.OnePerId(o.snapshot) && (forall k :: 0 <= k < |o.snapshot| ==> o.snapshot[k].jobId < o.nextJobId)
    && JobsProgress(o.jobs, m.jobs, m.timers, o.nextJobId) && o.timers <= m.timers && o.nextJobId <= m.nextJobId
    && PassInvariant(m.view, m.workers, o.workers, maxActive, maxWriters)
    && WithinJobLimits(o.jobs, o.workers, m.workers)
    && InTurn(o.snapshot, i, m.jobs, o.workers, m.workers, m.view, maxWriters)
    && NewWorkersAreForThese(o.snapshot, i, o.workers, m.workers)
  }

  /** The pass deals with listed jobs only: nothing else enters the queue, and no other job is touched. */
  ghost predicate OnlyListed(o: Origin, m: Moment) {
    && (forall k :: QueueSpec.Holds(m.queue, k) ==> QueueSpec.Holds(o.snapshot, k))
    && (forall j :: j in o.jobs && !QueueSpec.Holds(o.snapshot, j) ==> j in m.jobs && m.jobs[j] == o.jobs[j])
  }

  /** Between these moments only this job and workers for it have been worked on. */
  ghost predicate WorkedOn(a: Moment, b: Moment, jobId: JobId) {
    && OnlyJobMoved(a.jobs, b.jobs, jobId, b.timers, a.nextJobId) && a.nextJobId <= b.nextJobId && a.timers <= b.timers
    && NewWorkersFor(a.workers, b.workers, jobId) && Extends(a.view, b.view)
  }

  /** A job dealt with stays where it stood, leaves the queue, or goes last with its latest record. */
  ghost predicate QueueAfterDealing(before: seq<Job>, after: seq<Job>, jobs: map<JobId, Job>, jobId: JobId) {
    || after == before || after == QueueSpec.Remove(before, jobId)
    || (jobId in jobs && after == QueueSpec.Enqueue(QueueSpec.Remove(before, jobId), jobs[jobId]))
  }

  lemma WorkedOnTwice(a: Moment, b: Moment, c: Moment, jobId: JobId)
    requires WorkedOn(a, b, jobId) && WorkedOn(b, c, jobId) && jobId in a.jobs
    ensures WorkedOn(a, c, jobId)
  {
    OnlyJobMovedTwice(a.jobs, b.jobs, c.jobs, jobId, b.timers, c.timers, a.nextJobId, b.nextJobId);
    NewWorkersTwice(a.workers, b.workers, c.workers, jobId);
    ExtendsTwice(a.view, b.view, c.view);
  }

  /** What dealing with job `jobId` does. */
  ghost predicate OneDealt(o: Origin, jobId: JobId, a: Moment, b: Moment, maxActive: int, maxWriters: int) {
    && WorkedOn(a, b, jobId) && PassInvariant(b.view, b.workers, o.workers, maxActive, maxWriters)
    && (forall k :: k != jobId ==> (QueueSpec.Holds(b.queue, k) <==> QueueSpec.Holds(a.queue, k)))
    && Settled(jobId, b.jobs, b.workers, b.queue, b.view, maxActive, maxWriters)
    && (jobId in b.jobs ==>
          |SchedulableOf(b.workers, jobId)| <= b.jobs[jobId].maxWorkers
              || SchedulableOf(b.workers, jobId) == SchedulableOf(a.workers, jobId))
    && (!CanDispatch(|a.view|, maxActive) ==> b.workers == a.workers)
  }

  lemma OnlyListedStep(o: Origin, jobId: JobId, a: Moment, b: Moment, maxActive: int, maxWriters: int)
    requires OnlyListed(o, a) && QueueSpec.Holds(o.snapshot, jobId) && OneDealt(o, jobId, a, b, maxActive, maxWriters)
    ensures OnlyListed(o, b)
  {
  }

  lemma PlacesStep(o: Origin, i: nat, a: Moment, b: Moment, maxActive: int, maxWriters: int)
    requires Places(o, i, a, maxActive, maxWriters) && i < |o.snapshot| && QueueSpec.OnePerId(o.snapshot)
    requires OneDealt(o, o.snapshot[i].jobId, a, b, maxActive, maxWriters)
    requires forall j :: j in a.jobs ==> a.jobs[j].jobId == j
    requires forall k :: 0 <= k < |o.snapshot| ==> o.snapshot[k].jobId < a.nextJobId
    ensures Places(o, i + 1, b, maxActive, maxWriters)
  {
    forall k | 0 <= k < i ensures Settled(o.snapshot[k].jobId, b.jobs, b.workers, b.queue, b.view, maxActive,
        maxWriters) {
      SettledPersists(o.snapshot[k].jobId, o.snapshot[i].jobId, a.jobs, b.jobs, b.timers, a.workers, b.workers,
          a.queue, b.queue,
                      a.view, b.view, maxActive, maxWriters, a.nextJobId);
    }
  }

  lemma ProgressStep(o: Origin, i: nat, a: Moment, b: Moment, maxActive: int, maxWriters: int)
    requires Places(o, i, a, maxActive, maxWriters) && i < |o.snapshot| && Progress(o, i, a, maxActive, maxWriters)
    requires OneDealt(o, o.snapshot[i].jobId, a, b, maxActive, maxWriters)
    requires forall j :: j in a.jobs ==> a.jobs[j].jobId == j
    ensures Progress(o, i + 1, b, maxActive, maxWriters)
  {
    var jobId := o.snapshot[i].jobId;
    NewWorkersFromSnapshot(o.snapshot, i, o.workers, a.workers, b.workers);
    JobsProgressStep(o.jobs, a.jobs, b.jobs, jobId, a.timers, b.timers, o.nextJobId, a.nextJobId);
    LimitsAfter(o, jobId, a, b, maxActive, maxWriters);
    TurnsAfter(o, i, a, b, maxActive, maxWriters);
  }

  lemma LimitsAfter(o: Origin, jobId: JobId, a: Moment, b: Moment, maxActive: int, maxWriters: int)
    requires WithinJobLimits(o.jobs, o.workers, a.workers) && OneDealt(o, jobId, a, b, maxActive, maxWriters)
    requires JobsProgress(o.jobs, a.jobs, a.timers, o.nextJobId)
    ensures WithinJobLimits(o.jobs, o.workers, b.workers)
  {
    assert jobId in o.jobs ==> jobId in a.jobs && SameRequest(o.jobs[jobId], a.jobs[jobId]);
    WithinJobLimitsStep(o.jobs, b.jobs, o.workers, a.workers, b.workers, jobId);
  }

  lemma TurnsAfter(o: Origin, i: nat, a: Moment, b: Moment, maxActive: int, maxWriters: int)
    requires Places(o, i, a, maxActive, maxWriters) && i < |o.snapshot| && Progress(o, i, a, maxActive, maxWriters)
    requires OneDealt(o, o.snapshot[i].jobId, a, b, maxActive, maxWriters)
    requires forall j :: j in a.jobs ==> a.jobs[j].jobId == j
    ensures InTurn(o.snapshot, i + 1, b.jobs, o.workers, b.workers, b.view, maxWriters)
  {
    forall k | 0 <= k < i
      ensures o.snapshot[k].jobId !in a.jobs || Served(a.jobs[o.snapshot[k].jobId], a.workers, a.view, maxWriters)
              || !CanDispatch(|a.view|, maxActive)
    {
      assert Settled(o.snapshot[k].jobId, a.jobs, a.workers, a.queue, a.view, maxActive, maxWriters);
    }
    InTurnStep(o.snapshot, i, a.jobs, b.jobs, b.timers, a.nextJobId, o.workers, a.workers, b.workers, a.view, b.view,
        maxActive, maxWriters);
  }

  /**
   How `claimRemoteWorker` ends: before it writes, after it has written the worker, after the job has moved, or well.
   */
  datatype ClaimOutcome = ClaimFails | ClaimFailsAfterWorker | ClaimFailsLate | ClaimSucceeds

  /** What `claimRemoteJob` comes to; it rejects when the failure handler itself raises. */
  datatype Claim = NothingClaimed | Claimed(worker: Worker) | ClaimFailed(job: Job) | ClaimRejected(job: Job)

  /** The queue loses only jobs that may not take more workers. */
  ghost predicate OnlyServedDropped(before: seq<Job>, after: seq<Job>, jobs: map<JobId, Job>, workers: Workers) {
    forall k: JobId ::
      && (QueueSpec.Holds(after, k) ==> QueueSpec.Holds(before, k))
      && (QueueSpec.Holds(before, k) && !QueueSpec.Holds(after, k) ==> !Waiting(jobs, workers, k))
  }

  /** Passed over: the job may not take more workers, or its repository is being written. */
  predicate PassedOver(j: JobId, jobs: map<JobId, Job>, workers: Workers, maxWriters: int) {
    !Waiting(jobs, workers, j) || HasWriteConflict(jobs[j].isolationMode, jobs[j].repoPath, ViewOf(workers), maxWriters)
  }

  /** The job may take a worker now, and every job listed before it was passed over. */
  ghost predicate ClaimedInTurn(listing: seq<Job>, j: JobId, jobs: map<JobId, Job>, workers: Workers, maxWriters: int) {
    exists n :: 0 <= n < |listing| && listing[n].jobId == j && Waiting(jobs, workers, j)
        && !PassedOver(j, jobs, workers, maxWriters)
                && forall m :: 0 <= m < n ==> PassedOver(listing[m].jobId, jobs, workers, maxWriters)
  }

  /** What a failed claim may leave of its worker: no record, or one that is not active. */
  ghost predicate AtMostIdleWorker(before: Workers, after: Workers, w: WorkerId) {
    after == before || (w in after && after == before[w := after[w]]
        && (after[w].status.Created? || after[w].status.Starting?))
  }

  /** What dispatching from `o` promises, whether or not there was a pass: see `DispatchLoop`. */
  ghost predicate SafelyDispatched(o: Origin, queue0: seq<Job>, m: Moment, maxActive: int, maxWriters: int) {
    && JobsProgress(o.jobs, m.jobs, m.timers, o.nextJobId) && o.timers <= m.timers && Extends(o.workers, m.workers)
    && (|ActiveIn(m.workers)| <= maxActive || ActiveIn(m.workers) == ActiveIn(o.workers))
    && (forall repo :: |ActiveWritersIn(m.workers, repo)| <= maxWriters
          || ActiveWritersIn(m.workers, repo) == ActiveWritersIn(o.workers, repo))
    && WithinJobLimits(o.jobs, o.workers, m.workers)
    && (forall k :: QueueSpec.Holds(queue0, k) && Waiting(m.jobs, m.workers, k) ==> QueueSpec.Holds(m.queue, k))
    && OnlyQueuedTouched(queue0, m.queue, o.jobs, m.jobs, o.workers, m.workers)
    && ExceededByIdleOnly(o.workers, m.workers, maxActive)
    && InTurn(o.snapshot, |o.snapshot|, m.jobs, o.workers, m.workers, m.workers, maxWriters)
  }

  lemma NothingDispatched(o: Origin, queue0: seq<Job>, view: Workers, maxActive: int, maxWriters: int)
    ensures SafelyDispatched(o, queue0, Moment(o.jobs, o.workers, queue0, o.timers, o.nextJobId, view), maxActive,
        maxWriters)
  {
  }

  class Scheduler {
    const maxActiveWorkers: int
    const maxWriteWorkersPerRepo: int
    const defaultMaxRetries: int

    var jobs: map<JobId, Job>
    var workers: map<WorkerId, Worker>
    var results: map<WorkerId, Execution>
    var queue: seq<Job>
    /** Retry clones waiting for their timer. */
    var timers: seq<Job>
    var nextJobId: JobId
    var nextWorkerId: WorkerId
    var dispatching: bool

    ghost predicate Valid()
      reads this
    {
      && (forall j :: j in jobs ==> jobs[j].jobId == j && j < nextJobId)
      && (forall w :: w in workers ==> workers[w].workerId == w && w < nextWorkerId)
      && (forall w :: w in results ==> w < nextWorkerId)
      && (forall k: JobId :: QueueSpec.Holds(queue, k) ==> k < nextJobId)
    }

    constructor (maxActiveWorkers: int, maxWriteWorkersPerRepo: int, defaultMaxRetries: int)
      ensures Valid() && jobs == map[] && workers == map[] && queue == [] && timers == [] && !dispatching
      ensures this.maxActiveWorkers == maxActiveWorkers && this.maxWriteWorkersPerRepo == maxWriteWorkersPerRepo
      ensures this.defaultMaxRetries == defaultMaxRetries
    {
      this.maxActiveWorkers, this.maxWriteWorkersPerRepo := maxActiveWorkers, maxWriteWorkersPerRepo;
      this.defaultMaxRetries := defaultMaxRetries;
      jobs, workers, results := map[], map[], map[];
      queue, timers, nextJobId, nextWorkerId, dispatching := [], [], 0, 0, false;
    }

    /** `#advanceJobToStatus` on a record, whatever is stored: writes `job` with its new status, if that is another. */
    method AdvanceRecord(job: Job, target: JobStatus) returns (raised: bool, advanced: Job)
      requires Valid() && job.jobId < nextJobId
      modifies this`jobs
      ensures Valid()
      ensures raised <==> !CanAdvance(job.status, target)
      ensures raised ==> jobs == old(jobs) && advanced == job
      ensures !raised ==> advanced == job.(status := Destination(job.status, target))
      ensures !raised && advanced != job ==> jobs == old(jobs)[job.jobId := advanced]
      ensures !raised && advanced == job ==> jobs == old(jobs)
      ensures !raised && job.jobId in old(jobs) && old(jobs)[job.jobId] == job ==>
        jobs == old(jobs)[job.jobId := advanced]
    {
      var written;
      written, raised := AdvanceJobToStatus(job.status, target);
      LegalPathClimbs(job.status, written);
      advanced := job;
      if written != [] {
        advanced := job.(status := written[|written| - 1]);
        jobs := jobs[job.jobId := advanced];
      }
    }

    method CollectResults(own: set<WorkerId>) returns (collected: seq<Execution>)
      requires own <= workers.Keys
      ensures forall e :: e in collected <==> exists w :: w in own && ResultOf(workers, results, w) == e
    {
      collected := [];
      var remaining := own;
      while remaining != {}
        invariant remaining <= own
        invariant forall e :: e in collected <==> exists w :: w in own - remaining && ResultOf(workers, results, w) == e
        decreases |remaining|
      {
        var w :| w in remaining;
        ghost var before := own - remaining;
        remaining := remaining - {w};
        assert own - remaining == before + {w};
        collected := collected + [ResultOf(workers, results, w)];
      }
      assert own - remaining == own;
    }

    /** `#aggregateJobIfReady`: closes a job once all its workers are terminal, with the worst of their results. */
    method AggregateJobIfReady(jobId: JobId)
      requires Valid()
      modifies this`jobs
      ensures Valid()
      ensures jobId in old(jobs) && ReadyToAggregate(old(jobs)[jobId], workers) ==>
        jobs == old(jobs)[jobId := old(jobs)[jobId].(status := AggregatedStatus(jobId, workers, results))]
      ensures jobId !in old(jobs) || !ReadyToAggregate(old(jobs)[jobId], workers) ==> jobs == old(jobs)
    {
      if jobId !in jobs || TerminalJob(jobs[jobId].status) {
        return;
      }
      var own := WorkersOf(workers, jobId);
      if own == {} || |own| < |jobs[jobId].workerIds| {
        return;
      }
      if exists w :: w in own && !TerminalWorker(workers[w].status) {
        return;
      }
      AggregateResults(jobs[jobId]);
    }

    method AggregateResults(job: Job)
      requires Valid() && job.jobId in jobs && jobs[job.jobId] == job && Linear(job.status)
      modifies this`jobs
      ensures Valid()
      ensures jobs == old(jobs)[job.jobId := job.(status := AggregatedStatus(job.jobId, workers, results))]
    {
      var collected := CollectResults(WorkersOf(workers, job.jobId));
      ClosesWithWorst(collected, set w | w in WorkersOf(workers, job.jobId) :: ResultOf(workers, results, w));
      CloseJob(job, collected);
    }

    method CloseJob(job: Job, collected: seq<Execution>)
      requires Valid() && job.jobId in jobs && jobs[job.jobId] == job && Linear(job.status)
      modifies this`jobs
      ensures Valid()
      ensures jobs == old(jobs)[job.jobId := job.(status :=
        MapJobResultToJobStatus(DetermineJobResultStatus(JobStatus.Aggregating, collected)))]
    {
      var raised, aggregating := AdvanceRecord(job, JobStatus.Aggregating);
      var status := DetermineJobResultStatus(aggregating.status, collected);
      ClosesFromAggregating(collected);
      var raised', finalized := AdvanceRecord(aggregating, MapJobResultToJobStatus(status));
      Overwritten(old(jobs), job.jobId, aggregating, finalized);
    }

    /** `createWorker`: a new record for the stored job, or the caller's where none is stored, then the job with it. */
    method CreateWorker(jobRecord: Job, outcome: CreateOutcome) returns (raised: bool, worker: Worker)
      requires Valid() && jobRecord.jobId < nextJobId
      modifies this`jobs, this`workers, this`nextWorkerId
      ensures Valid() && raised == (outcome != CreateSucceeds)
      ensures nextWorkerId == old(nextWorkerId) + 1 && worker.workerId == old(nextWorkerId)
      ensures var job := if jobRecord.jobId in old(jobs) then old(jobs)[jobRecord.jobId] else jobRecord;
        && worker == Worker(old(nextWorkerId), job.jobId, WorkerStatus.Created, job.repoPath,
                            job.isolationMode == Worktree, false)
        && workers == (if outcome == CreateFails then old(workers) else old(workers)[worker.workerId := worker])
        && jobs == if outcome.CreateFails? || outcome.CreateFailsLeavingWorker? then old(jobs)
                   else old(jobs)[job.jobId := job.(workerIds := job.workerIds + [worker.workerId])]
    {
      var latestJob := if jobRecord.jobId in jobs then jobs[jobRecord.jobId] else jobRecord;
      worker := Worker(nextWorkerId, latestJob.jobId, WorkerStatus.Created, latestJob.repoPath,
                       latestJob.isolationMode == Worktree, false);
      nextWorkerId := nextWorkerId + 1;
      raised := true;
      if outcome == CreateFails {
        return;
      }
      workers := workers[worker.workerId := worker];
      if outcome == CreateFailsLeavingWorker {
        return;
      }
      jobs := jobs[latestJob.jobId := latestJob.(workerIds := latestJob.workerIds + [worker.workerId])];
      raised := outcome == CreateFailsAfterJobUpdate;
    }

    method SetWorkerStatus(workerId: WorkerId, status: WorkerStatus)
      requires Valid() && workerId in workers
      modifies this`workers
      ensures Valid() && workers == old(workers)[workerId := old(workers)[workerId].(status := status)]
    {
      workers := workers[workerId := workers[workerId].(status := status)];
    }

    /** The worker is starting and the job dispatching. */
    method BeginStart(worker: Worker, ghost job: Job) returns (currentJob: Job)
      requires Valid() && worker.workerId in workers && workers[worker.workerId] == worker
      requires worker.jobId in jobs && jobs[worker.jobId] == job && Linear(job.status)
      modifies this`jobs, this`workers
      ensures Valid() && currentJob == job.(status := Destination(job.status, JobStatus.Dispatching))
      ensures workers == old(workers)[worker.workerId := worker.(status := WorkerStatus.Starting)]
      ensures jobs == old(jobs)[job.jobId := currentJob]
    {
      SetWorkerStatus(worker.workerId, WorkerStatus.Starting);
      var raised;
      raised, currentJob := AdvanceRecord(jobs[worker.jobId], JobStatus.Dispatching);
    }

    /**
     `startWorker`. It raises without a write for a worker or job that is missing and for a worker past its creation;
     for a job that has ended it raises with the worker left starting. Otherwise see `StartCreated`.
     */
    method StartWorker(worker: Worker, outcome: StartOutcome) returns (raised: bool)
      requires Valid()
      modifies this`jobs, this`workers, this`results
      ensures Valid()
      ensures !CanStart(worker.workerId, old(jobs), old(workers)) ==>
        raised && jobs == old(jobs) && workers == old(workers) && results == old(results)
      ensures CanStart(worker.workerId, old(jobs), old(workers)) ==>
        var currentWorker := old(workers)[worker.workerId];
        var currentJob := old(jobs)[currentWorker.jobId];
        if TerminalJob(currentJob.status)
        then raised && jobs == old(jobs) && results == old(results)
             && workers == old(workers)[worker.workerId := currentWorker.(status := WorkerStatus.Starting)]
        else StartOf(currentWorker, currentJob, outcome, old(jobs), old(workers), old(results), jobs, workers, results)
             && raised == (StartedAs(outcome, currentWorker, currentJob) != WorkerStatus.Active)
    {
      if worker.workerId !in workers || workers[worker.workerId].jobId !in jobs {
        return true;
      }
      var currentWorker := workers[worker.workerId];
      var currentJob := jobs[currentWorker.jobId];
      if !ValidWorker(currentWorker.status, WorkerStatus.Starting) {
        return true;
      }
      if TerminalJob(currentJob.status) {
        SetWorkerStatus(worker.workerId, WorkerStatus.Starting);
        var raised', _ := AdvanceRecord(currentJob, JobStatus.Dispatching);
        return raised';
      }
      raised := StartCreated(currentWorker, currentJob, outcome);
    }

    /**
     The start of a created worker. A worktree failure leaves the worker starting; a runtime failure fails it, and the
     job with it if that was the last of its workers.
     */
    method StartCreated(worker: Worker, ghost job: Job, outcome: StartOutcome) returns (raised: bool)
      requires Valid() && worker.workerId in workers && workers[worker.workerId] == worker
      requires worker.jobId in jobs && jobs[worker.jobId] == job
      requires worker.status == WorkerStatus.Created && Linear(job.status)
      modifies this`jobs, this`workers, this`results
      ensures Valid() && raised == (StartedAs(outcome, worker, job) != WorkerStatus.Active)
      ensures StartOf(worker, job, outcome, old(jobs), old(workers), old(results), jobs, workers, results)
    {
      var workerId := worker.workerId;
      var currentJob := BeginStart(worker, job);
      if worker.writeCapable && currentJob.isolationMode == Worktree && outcome == WorktreeFails {
        return true;
      }
      raised := StartRuntime(workerId, currentJob, outcome);
      PastWorktree(outcome, worker, job, workers);
      Overwritten(old(workers), workerId, worker.(status := WorkerStatus.Starting), workers[workerId]);
      Overwritten(old(jobs), job.jobId, currentJob, jobs[job.jobId]);
    }

    /** The part of `startWorker` inside its `try`. */
    method StartRuntime(workerId: WorkerId, job: Job, outcome: StartOutcome) returns (raised: bool)
      requires Valid() && workerId in workers && workers[workerId].jobId == job.jobId
      requires job.jobId in jobs && jobs[job.jobId] == job && Linear(job.status)
      modifies this`jobs, this`workers, this`results
      ensures Valid() && raised == (outcome.RuntimeFails? || outcome.RuntimeFailsLate?)
      ensures workers == old(workers)[workerId := old(workers)[workerId].(status :=
        if raised then WorkerStatus.Failed else WorkerStatus.Active)]
      ensures results == (if raised then old(results)[workerId := Execution.Failed] else old(results))
      ensures var reached := if outcome.RuntimeFails? then job
              else job.(status := Destination(job.status, JobStatus.Running));
        jobs == old(jobs)[job.jobId :=
          if raised && ReadyToAggregate(reached, workers) then reached.(status := JobStatus.Failed) else reached]
    {
      raised := outcome.RuntimeFails? || outcome.RuntimeFailsLate?;
      if outcome != RuntimeFails {
        SetWorkerStatus(workerId, WorkerStatus.Active);
        var raised', _ := AdvanceRecord(job, JobStatus.Running);
      }
      if raised {
        ghost var worker, reached := workers[workerId], jobs[job.jobId];
        FinalizeStartFailure(workerId);
        Overwritten(old(workers), workerId, worker, workers[workerId]);
        Overwritten(old(jobs), job.jobId, reached, jobs[job.jobId]);
      }
    }

    /** `#finalizeStartFailure`, then the aggregation it queues. */
    method FinalizeStartFailure(workerId: WorkerId)
      requires Valid() && workerId in workers && workers[workerId].jobId in jobs
      modifies this`jobs, this`workers, this`results
      ensures Valid()
      ensures workers == old(workers)[workerId := old(workers)[workerId].(status := WorkerStatus.Failed)]
      ensures results == old(results)[workerId := Execution.Failed]
      ensures var job := old(jobs)[old(workers)[workerId].jobId];
        jobs == if ReadyToAggregate(job, workers) then old(jobs)[job.jobId := job.(status := JobStatus.Failed)]
            else old(jobs)
    {
      SetWorkerStatus(workerId, WorkerStatus.Failed);
      results := results[workerId := Execution.Failed];
      var jobId := workers[workerId].jobId;
      assert workerId in WorkersOf(workers, jobId) && ResultOf(workers, results, workerId) == Execution.Failed;
      AggregateJobIfReady(jobId);
    }

    /** `#createRetryJob`, up to its test whether to enqueue. */
    method CloneForRetry(job: Job) returns (retriedJob: Job)
      requires Valid()
      modifies this`jobs, this`nextJobId
      ensures Valid() && retriedJob == RetryClone(job, old(nextJobId)) && nextJobId == old(nextJobId) + 1
      ensures jobs == old(jobs)[retriedJob.jobId := retriedJob]
    {
      retriedJob := job.(jobId := nextJobId, status := JobStatus.Queued, workerIds := [],
                         metadata := Retry.RetryMetadata(job.metadata, Decimal.Print(job.jobId)));
      jobs := jobs[nextJobId := retriedJob];
      nextJobId := nextJobId + 1;
    }

    /**
     `#handleDispatchFailure` on a job record that may be older than the stored one. Failed is written over whatever is
     stored by then: a job that has ended is changed exactly if the record was still under way, past its queueing.
     */
    method HandleDispatchFailure(job: Job) returns (raised: bool)
      requires Valid() && job.jobId < nextJobId
      modifies this`jobs, this`timers, this`nextJobId
      ensures Valid()
      ensures job.jobId in old(jobs) && TerminalJob(old(jobs)[job.jobId].status) ==>
        && job.jobId in jobs
        && (jobs[job.jobId].status != old(jobs)[job.jobId].status <==>
             Linear(job.status) && job.status != JobStatus.Queued && old(jobs)[job.jobId].status != JobStatus.Failed)
      ensures raised == FailureRaises(job.status, WillRetry(job, defaultMaxRetries))
      ensures raised ==> jobs == old(jobs)
      ensures raised || !WillRetry(job, defaultMaxRetries) ==> timers == old(timers) && nextJobId == old(nextJobId)
      ensures !raised && !WillRetry(job, defaultMaxRetries) ==> jobs == WithFailed(old(jobs), job)
      ensures !raised && WillRetry(job, defaultMaxRetries) ==>
        && jobs == WithFailed(old(jobs), job)[old(nextJobId) := RetryClone(job, old(nextJobId))]
        && timers == old(timers) + [RetryClone(job, old(nextJobId))] && nextJobId == old(nextJobId) + 1
    {
      var nextFailureCount := Retry.RetryCount(job.metadata) + 1;
      if Retry.ShouldRetry(job.metadata, nextFailureCount, defaultMaxRetries) {
        var failedJob := job;
        if job.status != JobStatus.Failed {
          raised, failedJob := AdvanceRecord(job, JobStatus.Failed);
          if raised {
            return;
          }
        }
        var retriedJob := CloneForRetry(failedJob);
        timers := timers + [retriedJob];
        return false;
      }
      raised := false;
      if !TerminalJob(job.status) {
        var failedJob;
        raised, failedJob := AdvanceRecord(job, JobStatus.Failed);
      }
    }

    /** Creating and starting one worker, as far as it gets. */
    method CreateAndStart(job: Job, create: CreateOutcome, start: StartOutcome) returns (raised: bool, worker: Worker)
      requires Valid() && job.jobId in jobs && jobs[job.jobId] == job
      requires Linear(job.status) && job.status != JobStatus.Queued
      modifies this`jobs, this`workers, this`results, this`nextWorkerId
      ensures Valid() && nextWorkerId == old(nextWorkerId) + 1
      ensures worker.workerId == old(nextWorkerId) && worker.jobId == job.jobId && worker.repoPath == job.repoPath
      ensures worker.writeCapable == (job.isolationMode == Worktree)
      ensures raised == (worker.status != WorkerStatus.Active) && LeftAs(worker.status)
      ensures workers == old(workers)[worker.workerId := worker] || (raised && workers == old(workers))
      ensures !raised ==> create.CreateSucceeds? && StartedAs(start, worker, job) == WorkerStatus.Active
      ensures job.jobId in jobs && jobs == old(jobs)[job.jobId := jobs[job.jobId]] && SameRequest(job, jobs[job.jobId])
      ensures if raised then Reaches(job.status, jobs[job.jobId].status)
              && (TerminalJob(jobs[job.jobId].status) ==> jobs[job.jobId].status == JobStatus.Failed)
              else jobs[job.jobId].status == Destination(job.status, JobStatus.Running)
    {
      raised, worker := CreateWorker(job, create);
      if !raised {
        ghost var created, listed := worker, jobs[job.jobId];
        raised := StartWorker(worker, start);
        worker := workers[worker.workerId];
        JobAfterStartMoves(start, created, listed, workers);
        Overwritten(old(workers), worker.workerId, created, worker);
        Overwritten(old(jobs), job.jobId, listed, jobs[job.jobId]);
      }
    }

    /** One turn of the inner loop: create a worker, start it, and handle the failure if either raises. */
    method Attempt(job: Job) returns (started: bool, worker: Worker)
      requires Valid() && job.jobId in jobs && jobs[job.jobId] == job
      requires Linear(job.status) && job.status != JobStatus.Queued
      modifies this`jobs, this`workers, this`results, this`timers, this`nextJobId, this`nextWorkerId
      ensures Valid() && OnlyJobMoved(old(jobs), jobs, job.jobId, timers, old(nextJobId)) && old(nextJobId) <= nextJobId
      ensures worker.workerId == old(nextWorkerId) && worker.jobId == job.jobId && worker.repoPath == job.repoPath
      ensures worker.writeCapable == (job.isolationMode == Worktree) && nextWorkerId == old(nextWorkerId) + 1
      ensures started == (worker.status == WorkerStatus.Active) && LeftAs(worker.status)
      ensures workers == old(workers)[worker.workerId := worker] || (!started && workers == old(workers))
      ensures jobs[job.jobId].status == if started then Destination(job.status, JobStatus.Running) else JobStatus.Failed
      ensures old(timers) <= timers && (started ==> timers == old(timers))
    {
      var create: CreateOutcome := *;
      var start: StartOutcome := *;
      var raised;
      raised, worker := CreateAndStart(job, create, start);
      started := !raised;
      if raised {
        ghost var before, clones := jobs, timers;
        FailStored(jobs[job.jobId]);
        OnlyJobMovedTwice(old(jobs), before, jobs, job.jobId, clones, timers, old(nextJobId), old(nextJobId));
      }
    }

    /** The failure handler on the stored record of a job that has left the queue: it never raises. */
    method FailStored(latestJob: Job)
      requires Valid() && latestJob.jobId in jobs && jobs[latestJob.jobId] == latestJob
      requires latestJob.status == JobStatus.Failed
               || (Linear(latestJob.status) && latestJob.status != JobStatus.Queued)
      modifies this`jobs, this`timers, this`nextJobId
      ensures Valid() && OnlyJobMoved(old(jobs), jobs, latestJob.jobId, timers, old(nextJobId))
              && old(nextJobId) <= nextJobId
      ensures jobs[latestJob.jobId].status == JobStatus.Failed
      ensures timers == old(timers) + if WillRetry(latestJob, defaultMaxRetries)
              then [RetryClone(latestJob, old(nextJobId))] else []
    {
      var raised := HandleDispatchFailure(latestJob);
      assert !raised;
    }

    function Now(view: Workers): Moment
      reads this
    {
      Moment(jobs, workers, queue, timers, nextJobId, view)
    }

    /** One turn seen from the pass: its invariant holds again, with a started worker in its list. */
    method AttemptInPass(job: Job, activeWorkers: Workers, ghost start: Workers) returns (started: bool, view: Workers)
      requires Valid() && job.jobId in jobs && jobs[job.jobId] == job
      requires Linear(job.status) && job.status != JobStatus.Queued
      requires PassInvariant(activeWorkers, workers, start, maxActiveWorkers, maxWriteWorkersPerRepo)
      requires CanDispatch(|activeWorkers|, maxActiveWorkers)
      requires !HasWriteConflict(job.isolationMode, job.repoPath, activeWorkers, maxWriteWorkersPerRepo)
      modifies this`jobs, this`workers, this`results, this`timers, this`nextJobId, this`nextWorkerId
      ensures Valid() && WorkedOn(old(Now(activeWorkers)), Now(view), job.jobId)
      ensures PassInvariant(view, workers, start, maxActiveWorkers, maxWriteWorkersPerRepo)
      ensures started ==> Linear(jobs[job.jobId].status) && jobs[job.jobId].status != JobStatus.Queued
      ensures started ==> |SchedulableOf(workers, job.jobId)| == |SchedulableOf(old(workers), job.jobId)| + 1
      ensures started ==> |view| == |activeWorkers| + 1
      ensures !started ==> jobs[job.jobId].status == JobStatus.Failed && view == activeWorkers
      ensures !started ==> |SchedulableOf(workers, job.jobId)| <= |SchedulableOf(old(workers), job.jobId)| + 1
    {
      var worker;
      started, worker := Attempt(job);
      StaysUnderWay(job.status);
      view := activeWorkers;
      if worker.workerId in workers {
        SchedulableAfterAdding(old(workers), worker, job.jobId);
        WorkerMade(view, old(workers), start, maxActiveWorkers, maxWriteWorkersPerRepo, worker);
        if started {
          view := view[worker.workerId := worker];
        }
      }
    }

    /** The store while workers are started for `job`, which now is `refreshedJob`, since `o`. */
    ghost predicate Filling(o: Moment, job: Job, refreshedJob: Job, view: Workers, start: Workers)
      reads this
    {
      && Valid() && WorkedOn(o, Now(view), job.jobId)
      && job.jobId in jobs && jobs[job.jobId] == refreshedJob && SameRequest(job, refreshedJob)
      && PassInvariant(view, workers, start, maxActiveWorkers, maxWriteWorkersPerRepo)
    }

    /** One turn of the inner loop. */
    method FillTurn(ghost o: Moment, ghost job: Job, refreshedJob: Job, activeWorkers: Workers, ghost start: Workers)
      returns (started: bool, view: Workers)
      requires Filling(o, job, refreshedJob, activeWorkers, start) && job.jobId in o.jobs
      requires Linear(refreshedJob.status) && refreshedJob.status != JobStatus.Queued
      requires CanDispatch(|activeWorkers|, maxActiveWorkers)
      requires !HasWriteConflict(refreshedJob.isolationMode, refreshedJob.repoPath, activeWorkers,
          maxWriteWorkersPerRepo)
      modifies this`jobs, this`workers, this`results, this`timers, this`nextJobId, this`nextWorkerId
      ensures job.jobId in jobs && Filling(o, job, jobs[job.jobId], view, start)
      ensures if started then Linear(jobs[job.jobId].status) && jobs[job.jobId].status != JobStatus.Queued
              else jobs[job.jobId].status == JobStatus.Failed
      ensures |view| == |activeWorkers| + if started then 1 else 0
      ensures var before, after := |SchedulableOf(old(workers), job.jobId)|, |SchedulableOf(workers, job.jobId)|;
        after <= before + 1 && (started ==> after == before + 1)
    {
      ghost var before := Now(activeWorkers);
      started, view := AttemptInPass(refreshedJob, activeWorkers, start);
      WorkedOnTwice(o, before, Now(view), job.jobId);
    }

    /**
     The inner loop: start workers for one job until it is full, capacity runs out, a writer conflicts or one fails.
     */
    method FillJob(job: Job, activeWorkers: Workers, activeWorkerCount: nat, alreadyActive: nat, ghost start: Workers)
      returns (view: Workers, count: nat)
      requires Valid() && job.jobId in jobs && jobs[job.jobId] == job
      requires Linear(job.status) && job.status != JobStatus.Queued
      requires PassInvariant(activeWorkers, workers, start, maxActiveWorkers, maxWriteWorkersPerRepo)
      requires activeWorkerCount == |activeWorkers|
               && alreadyActive == |SchedulableOf(workers, job.jobId)| <= job.maxWorkers
      modifies this`jobs, this`workers, this`results, this`timers, this`nextJobId, this`nextWorkerId
      ensures job.jobId in jobs && Filling(old(Now(activeWorkers)), job, jobs[job.jobId], view, start)
      ensures count == |view|
      ensures |SchedulableOf(workers, job.jobId)| <= job.maxWorkers
      ensures Served(jobs[job.jobId], workers, view, maxWriteWorkersPerRepo) || !CanDispatch(count, maxActiveWorkers)
      ensures !CanDispatch(activeWorkerCount, maxActiveWorkers) ==> workers == old(workers)
    {
      ghost var o := Now(activeWorkers);
      view, count := activeWorkers, activeWorkerCount;
      var refreshedJob := job;
      var startedWorkers := 0;
      var started := true;
      while started && alreadyActive + startedWorkers < refreshedJob.maxWorkers
            && CanDispatch(count, maxActiveWorkers)
            && !HasWriteConflict(refreshedJob.isolationMode, refreshedJob.repoPath, view, maxWriteWorkersPerRepo)
        invariant Filling(o, job, refreshedJob, view, start) && count == |view|
        invariant if started then Linear(refreshedJob.status) && refreshedJob.status != JobStatus.Queued
                  else refreshedJob.status == JobStatus.Failed
        invariant started ==> |SchedulableOf(workers, job.jobId)| == alreadyActive + startedWorkers
        invariant |SchedulableOf(workers, job.jobId)| <= job.maxWorkers
        invariant !CanDispatch(activeWorkerCount, maxActiveWorkers) ==>
          workers == old(workers) && count == activeWorkerCount
        decreases job.maxWorkers - startedWorkers, started
      {
        started, view := FillTurn(o, job, refreshedJob, view, start);
        if started {
          startedWorkers := startedWorkers + 1;
          count := count + 1;
        }
        refreshedJob := jobs[job.jobId];
      }
    }

    method RemoveFromQueue(jobId: JobId)
      modifies this`queue
      ensures queue == QueueSpec.Remove(old(queue), jobId)
      ensures forall k :: QueueSpec.Holds(queue, k) <==> QueueSpec.Holds(old(queue), k) && k != jobId
      ensures QueueSpec.OnePerId(old(queue)) ==> QueueSpec.OnePerId(queue)
    {
      forall k ensures QueueSpec.Holds(QueueSpec.Remove(queue, jobId), k) <==> QueueSpec.Holds(queue, k) && k != jobId {
        QueueSpec.RemoveHolds(queue, jobId, k);
      }
      QueueSpec.RemoveKeepsOthers(queue, jobId);
      queue := QueueSpec.Remove(queue, jobId);
    }

    method EnqueueJob(job: Job)
      modifies this`queue
      ensures queue == QueueSpec.Enqueue(old(queue), job)
      ensures forall k :: QueueSpec.Holds(queue, k) <==> QueueSpec.Holds(old(queue), k) || k == job.jobId
      ensures QueueSpec.OnePerId(old(queue)) ==> QueueSpec.OnePerId(queue)
    {
      forall k
        ensures QueueSpec.Holds(QueueSpec.Enqueue(queue, job), k) <==> QueueSpec.Holds(queue, k) || k == job.jobId
      {
        QueueSpec.EnqueueHolds(queue, job, k);
      }
      if QueueSpec.OnePerId(queue) {
        QueueSpec.QueueStepKeepsOnePerId(queue, QueueSpec.EnqueueOp(job));
      }
      queue := QueueSpec.Enqueue(queue, job);
    }

    /** `#createRetryJob`: the clone is enqueued only if the caller asks for it. */
    method CreateRetryJob(job: Job, enqueue: bool) returns (retriedJob: Job)
      requires Valid()
      modifies this`jobs, this`queue, this`nextJobId
      ensures Valid() && retriedJob == RetryClone(job, old(nextJobId)) && nextJobId == old(nextJobId) + 1
      ensures jobs == old(jobs)[retriedJob.jobId := retriedJob]
      ensures queue == if enqueue then QueueSpec.Enqueue(old(queue), retriedJob) else old(queue)
    {
      retriedJob := CloneForRetry(job);
      if enqueue {
        EnqueueJob(retriedJob);
      }
    }

    /** `retryJob`: the clone of a known job goes to the queue at once, whatever has become of the job. */
    method RetryJob(jobId: JobId) returns (raised: bool)
      requires Valid()
      modifies this`jobs, this`queue, this`nextJobId
      ensures Valid() && (raised <==> jobId !in old(jobs))
      ensures raised ==> jobs == old(jobs) && queue == old(queue) && nextJobId == old(nextJobId)
      ensures !raised ==>
        var retriedJob := RetryClone(old(jobs)[jobId], old(nextJobId));
        && jobs == old(jobs)[retriedJob.jobId := retriedJob] && nextJobId == old(nextJobId) + 1
        && queue == QueueSpec.Enqueue(old(queue), retriedJob)
        && SameRequest(old(jobs)[jobId], retriedJob.(jobId := jobId, metadata := old(jobs)[jobId].metadata))
        && Retry.RetryCount(retriedJob.metadata) == Retry.RetryCount(old(jobs)[jobId].metadata) + 1
    {
      if jobId !in jobs {
        return true;
      }
      Retry.RetryMetadataCounts(jobs[jobId].metadata, Decimal.Print(jobId), defaultMaxRetries);
      var _ := CreateRetryJob(jobs[jobId], true);
      raised := false;
    }

    /** Preparing a job under way is always legal. */
    method PrepareJob(job: Job, ghost view: Workers) returns (refreshedJob: Job)
      requires Valid() && job.jobId in jobs && jobs[job.jobId] == job && Linear(job.status)
      modifies this`jobs
      ensures Valid() && WorkedOn(old(Now(view)), Now(view), job.jobId)
      ensures refreshedJob == job.(status := Destination(job.status, JobStatus.Preparing))
      ensures jobs == old(jobs)[job.jobId := refreshedJob]
    {
      var raised;
      raised, refreshedJob := AdvanceRecord(job, JobStatus.Preparing);
    }

    /** Preparing the job, then filling it. */
    method DispatchJob(job: Job, activeWorkers: Workers, activeWorkerCount: nat, alreadyActive: nat,
        ghost start: Workers)
      returns (view: Workers, count: nat)
      requires Valid() && job.jobId in jobs && jobs[job.jobId] == job && Linear(job.status)
      requires PassInvariant(activeWorkers, workers, start, maxActiveWorkers, maxWriteWorkersPerRepo)
      requires activeWorkerCount == |activeWorkers|
               && alreadyActive == |SchedulableOf(workers, job.jobId)| <= job.maxWorkers
      modifies this`jobs, this`workers, this`results, this`timers, this`nextJobId, this`nextWorkerId
      ensures Valid() && WorkedOn(old(Now(activeWorkers)), Now(view), job.jobId) && job.jobId in jobs
      ensures PassInvariant(view, workers, start, maxActiveWorkers, maxWriteWorkersPerRepo) && count == |view|
      ensures |SchedulableOf(workers, job.jobId)| <= job.maxWorkers
      ensures Served(jobs[job.jobId], workers, view, maxWriteWorkersPerRepo) || !CanDispatch(count, maxActiveWorkers)
      ensures jobs[job.jobId].status != JobStatus.Queued
    {
      var refreshedJob := PrepareJob(job, activeWorkers);
      ghost var prepared := Now(activeWorkers);
      view, count := FillJob(refreshedJob, activeWorkers, activeWorkerCount, alreadyActive, start);
      WorkedOnTwice(old(Now(activeWorkers)), prepared, Now(view), job.jobId);
    }

    /** A job that may be given workers is taken off the queue, filled, and put back if it may take more. */
    method DispatchWaiting(currentJob: Job, activeWorkers: Workers, activeWorkerCount: nat, alreadyActive: nat,
        ghost start: Workers)
      returns (view: Workers, count: nat)
      requires Valid() && QueueSpec.OnePerId(queue) && currentJob.jobId in jobs && jobs[currentJob.jobId] == currentJob
      requires Linear(currentJob.status)
      requires PassInvariant(activeWorkers, workers, start, maxActiveWorkers, maxWriteWorkersPerRepo)
      requires activeWorkerCount == |activeWorkers|
               && alreadyActive == |SchedulableOf(workers, currentJob.jobId)| <= currentJob.maxWorkers
      modifies this`jobs, this`workers, this`results, this`timers, this`queue, this`nextJobId, this`nextWorkerId
      ensures Valid() && QueueSpec.OnePerId(queue)
      ensures WorkedOn(old(Now(activeWorkers)), Now(view), currentJob.jobId) && currentJob.jobId in jobs
      ensures PassInvariant(view, workers, start, maxActiveWorkers, maxWriteWorkersPerRepo) && count == |view|
      ensures forall k :: k != currentJob.jobId ==> (QueueSpec.Holds(queue, k) <==> QueueSpec.Holds(old(queue), k))
      ensures QueueAfterDealing(old(queue), queue, jobs, currentJob.jobId)
      ensures Settled(currentJob.jobId, jobs, workers, queue, view, maxActiveWorkers, maxWriteWorkersPerRepo)
      ensures |SchedulableOf(workers, currentJob.jobId)| <= jobs[currentJob.jobId].maxWorkers
    {
      var jobId := currentJob.jobId;
      RemoveFromQueue(jobId);
      view, count := DispatchJob(currentJob, activeWorkers, activeWorkerCount, alreadyActive, start);
      var latestJob := jobs[jobId];
      if TerminalJob(latestJob.status) {
        return;
      }
      if |SchedulableOf(workers, jobId)| < latestJob.maxWorkers {
        EnqueueJob(latestJob);
      }
    }

    /** The body of the outer loop, for one job of the snapshot; `stop` is its `break`. */
    method DispatchOne(jobId: JobId, activeWorkers: Workers, activeWorkerCount: nat, ghost start: Workers)
      returns (view: Workers, count: nat, stop: bool)
      requires Valid() && QueueSpec.OnePerId(queue) && QueueSpec.Holds(queue, jobId)
      requires PassInvariant(activeWorkers, workers, start, maxActiveWorkers, maxWriteWorkersPerRepo)
      requires activeWorkerCount == |activeWorkers|
      modifies this`jobs, this`workers, this`results, this`timers, this`queue, this`nextJobId, this`nextWorkerId
      ensures Valid() && QueueSpec.OnePerId(queue)
      ensures WorkedOn(old(Now(activeWorkers)), Now(view), jobId)
      ensures jobId !in old(jobs) ==> jobs == old(jobs)
      ensures PassInvariant(view, workers, start, maxActiveWorkers, maxWriteWorkersPerRepo) && count == |view|
      ensures forall k :: k != jobId ==> (QueueSpec.Holds(queue, k) <==> QueueSpec.Holds(old(queue), k))
      ensures QueueAfterDealing(old(queue), queue, jobs, jobId)
      ensures !stop ==> Settled(jobId, jobs, workers, queue, view, maxActiveWorkers, maxWriteWorkersPerRepo)
      ensures stop ==>
        !CanDispatch(count, maxActiveWorkers) && Waiting(jobs, workers, jobId) && Now(view) == old(Now(activeWorkers))
      ensures jobId in jobs ==>
        |SchedulableOf(workers, jobId)| <= jobs[jobId].maxWorkers
            || SchedulableOf(workers, jobId) == SchedulableOf(old(workers), jobId)
      ensures !CanDispatch(activeWorkerCount, maxActiveWorkers) ==> workers == old(workers)
    {
      view, count, stop := activeWorkers, activeWorkerCount, false;
      if jobId !in jobs || TerminalJob(jobs[jobId].status) {
        RemoveFromQueue(jobId);
        return;
      }
      var currentJob := jobs[jobId];
      var alreadyActive := |SchedulableOf(workers, jobId)|;
      if alreadyActive >= currentJob.maxWorkers {
        RemoveFromQueue(jobId);
        return;
      }
      if !CanDispatch(count, maxActiveWorkers) {
        stop := true;
        return;
      }
      if HasWriteConflict(currentJob.isolationMode, currentJob.repoPath, view, maxWriteWorkersPerRepo) {
        return;
      }
      view, count := DispatchWaiting(currentJob, view, count, alreadyActive, start);
    }

    /** What a pass that begins now sets out from. */
    function Here(): Origin
      reads this
    {
      Origin(QueueSpec.Listed(queue), jobs, workers, timers, nextJobId)
    }

    /** What the outer loop keeps. */
    ghost predicate InPass(o: Origin, i: nat, view: Workers)
      reads this
    {
      && Valid() && QueueSpec.OnePerId(queue)
      && Places(o, i, Now(view), maxActiveWorkers, maxWriteWorkersPerRepo)
      && Progress(o, i, Now(view), maxActiveWorkers, maxWriteWorkersPerRepo)
      && OnlyListed(o, Now(view))
    }

    method Turn(ghost o: Origin, i: nat, job: Job, activeWorkers: Workers, activeWorkerCount: nat)
      returns (view: Workers, count: nat, stop: bool)
      requires InPass(o, i, activeWorkers) && i < |o.snapshot| && job == o.snapshot[i]
               && activeWorkerCount == |activeWorkers|
      modifies this`jobs, this`workers, this`results, this`timers, this`queue, this`nextJobId, this`nextWorkerId
      ensures InPass(o, if stop then i else i + 1, view) && count == |view|
      ensures stop ==> !CanDispatch(count, maxActiveWorkers)
    {
      ghost var before := Now(activeWorkers);
      view, count, stop := DispatchOne(job.jobId, activeWorkers, activeWorkerCount, o.workers);
      if stop {
        assert Now(view) == before;
        return;
      }
      assert OneDealt(o, job.jobId, before, Now(view), maxActiveWorkers, maxWriteWorkersPerRepo);
      PlacesStep(o, i, before, Now(view), maxActiveWorkers, maxWriteWorkersPerRepo);
      ProgressStep(o, i, before, Now(view), maxActiveWorkers, maxWriteWorkersPerRepo);
      assert QueueSpec.Holds(o.snapshot, job.jobId);
      OnlyListedStep(o, job.jobId, before, Now(view), maxActiveWorkers, maxWriteWorkersPerRepo);
    }

    lemma PassBegins(o: Origin)
      requires Valid() && QueueSpec.OnePerId(queue)
      requires o == Here()
      ensures InPass(o, 0, ViewOf(workers))
    {
      QueueListing.ListedDistinct(queue);
      forall k ensures QueueSpec.Holds(o.snapshot, k) <==> QueueSpec.Holds(queue, k) {
        QueueListing.ListedHolds(queue, k);
      }
      forall k | 0 <= k < |o.snapshot| ensures QueueSpec.Holds(queue, o.snapshot[k].jobId) {
        assert QueueSpec.Holds(o.snapshot, o.snapshot[k].jobId);
      }
      InitialView(workers, maxActiveWorkers, maxWriteWorkersPerRepo);
    }

    /** The outer loop over the snapshot of the queue. */
    method RunPass(ghost o: Origin) returns (ghost i: nat, ghost view: Workers)
      requires Valid() && QueueSpec.OnePerId(queue)
      requires o == Here()
      modifies this`jobs, this`workers, this`results, this`timers, this`queue, this`nextJobId, this`nextWorkerId
      ensures InPass(o, i, view) && (i == |o.snapshot| || !CanDispatch(|view|, maxActiveWorkers))
    {
      PassBegins(o);
      var queuedJobs := QueueSpec.Listed(queue);
      var activeWorkers := ViewOf(workers);
      var activeWorkerCount := |activeWorkers|;
      var index := 0;
      var stop := false;
      while index < |queuedJobs| && !stop
        invariant 0 <= index <= |queuedJobs|
        invariant InPass(o, index, activeWorkers) && activeWorkerCount == |activeWorkers|
        invariant stop ==> !CanDispatch(activeWorkerCount, maxActiveWorkers)
        decreases |queuedJobs| - index, !stop
      {
        activeWorkers, activeWorkerCount, stop := Turn(o, index, queuedJobs[index], activeWorkers, activeWorkerCount);
        if !stop {
          index := index + 1;
        }
      }
      i, view := index, activeWorkers;
    }

    lemma PassConclusion(o: Origin, i: nat, view: Workers)
      requires InPass(o, i, view)
      ensures |ActiveIn(workers)| <= maxActiveWorkers || ActiveIn(workers) == ActiveIn(o.workers)
      ensures forall repo :: |ActiveWritersIn(workers, repo)| <= maxWriteWorkersPerRepo
                             || ActiveWritersIn(workers, repo) == ActiveWritersIn(o.workers, repo)
      ensures ExceededByIdleOnly(o.workers, workers, maxActiveWorkers)
      ensures PassMakes(o.workers, workers, maxActiveWorkers, maxWriteWorkersPerRepo)
    {
      assert MadeSince(view, workers, o.workers, maxActiveWorkers, maxWriteWorkersPerRepo);
      forall repo ensures |ActiveWritersIn(workers, repo)| <= maxWriteWorkersPerRepo
                          || ActiveWritersIn(workers, repo) == ActiveWritersIn(o.workers, repo)
      {
        CapsHold(view, workers, o.workers, maxActiveWorkers, maxWriteWorkersPerRepo, repo);
      }
      CapsHold(view, workers, o.workers, maxActiveWorkers, maxWriteWorkersPerRepo, "");
      SchedulableAfterPass(view, workers, o.workers, maxActiveWorkers, maxWriteWorkersPerRepo);
    }

    /** A queued job that may take more workers after the pass was dealt with, or never reached for lack of capacity. */
    lemma WaitingStaysQueued(o: Origin, i: nat, view: Workers, queue0: seq<Job>, k: JobId)
      requires InPass(o, i, view) && (i == |o.snapshot| || !CanDispatch(|view|, maxActiveWorkers))
      requires o.snapshot == QueueSpec.Listed(queue0) && QueueSpec.Holds(queue0, k) && Waiting(jobs, workers, k)
      ensures QueueSpec.Holds(queue, k) && ReasonToWait(k)
    {
      QueueListing.ListedHolds(queue0, k);
      var n :| 0 <= n < |o.snapshot| && o.snapshot[n].jobId == k;
      ViewIsInStore(view, workers, jobs[k].repoPath);
      assert n < i ==> Settled(k, jobs, workers, queue, view, maxActiveWorkers, maxWriteWorkersPerRepo);
    }

    /** The pass gave workers to queued jobs only, and touched nothing else. */
    lemma PassTouchesQueuedJobs(o: Origin, i: nat, view: Workers, queue0: seq<Job>)
      requires InPass(o, i, view) && o.snapshot == QueueSpec.Listed(queue0)
      ensures OnlyQueuedTouched(queue0, queue, o.jobs, jobs, o.workers, workers)
    {
      forall k ensures QueueSpec.Holds(o.snapshot, k) <==> QueueSpec.Holds(queue0, k) {
        QueueListing.ListedHolds(queue0, k);
      }
      forall w | w in workers && w !in o.workers ensures QueueSpec.Holds(queue0, workers[w].jobId) {
        var k :| 0 <= k < i && o.snapshot[k].jobId == workers[w].jobId;
        assert QueueSpec.Holds(o.snapshot, workers[w].jobId);
      }
    }

    /** Why a job still waits after a pass: the store is at capacity, or its repository is being written. */
    predicate ReasonToWait(k: JobId)
      reads this
      requires k in jobs
    {
      || |SchedulableIn(workers)| >= maxActiveWorkers
      || HasWriteConflict(jobs[k].isolationMode, jobs[k].repoPath, workers, maxWriteWorkersPerRepo)
    }

    lemma InTurnAtEnd(o: Origin, i: nat, view: Workers)
      requires InPass(o, i, view)
      ensures InTurn(o.snapshot, |o.snapshot|, jobs, o.workers, workers, workers, maxWriteWorkersPerRepo)
    {
      forall a, b | 0 <= a < b < |o.snapshot| && GotWorker(o.workers, workers, o.snapshot[b].jobId)
        ensures o.snapshot[a].jobId !in jobs
                || Served(jobs[o.snapshot[a].jobId], workers, workers, maxWriteWorkersPerRepo)
      {
        var w :| w in workers && w !in o.workers && workers[w].jobId == o.snapshot[b].jobId;
        var k :| 0 <= k < i && o.snapshot[k].jobId == workers[w].jobId;
        assert k == b;
        if o.snapshot[a].jobId in jobs {
          var job := jobs[o.snapshot[a].jobId];
          ViewIsInStore(view, workers, job.repoPath);
        }
      }
    }

    /** What a pass has achieved when it is over. */
    lemma PassIsOver(o: Origin, i: nat, view: Workers, queue0: seq<Job>)
      requires InPass(o, i, view) && (i == |o.snapshot| || !CanDispatch(|view|, maxActiveWorkers))
      requires o.snapshot == QueueSpec.Listed(queue0)
      ensures SafelyDispatched(o, queue0, Now(view), maxActiveWorkers, maxWriteWorkersPerRepo)
      ensures PassMakes(o.workers, workers, maxActiveWorkers, maxWriteWorkersPerRepo)
      ensures forall k :: QueueSpec.Holds(queue0, k) && Waiting(jobs, workers, k) ==> ReasonToWait(k)
    {
      PassConclusion(o, i, view);
      PassTouchesQueuedJobs(o, i, view, queue0);
      InTurnAtEnd(o, i, view);
      forall k | QueueSpec.Holds(queue0, k) && Waiting(jobs, workers, k)
        ensures QueueSpec.Holds(queue, k) && ReasonToWait(k)
      {
        WaitingStaysQueued(o, i, view, queue0, k);
      }
    }

    /** The pass of a scheduler that has the lease. */
    method Dispatch()
      requires Valid() && QueueSpec.OnePerId(queue)
      modifies this`jobs, this`workers, this`results, this`timers, this`queue, this`nextJobId, this`nextWorkerId
      ensures Valid() && QueueSpec.OnePerId(queue)
      ensures SafelyDispatched(old(Here()), old(queue), Now(map[]), maxActiveWorkers, maxWriteWorkersPerRepo)
      ensures PassMakes(old(workers), workers, maxActiveWorkers, maxWriteWorkersPerRepo)
      ensures forall k :: QueueSpec.Holds(old(queue), k) && Waiting(jobs, workers, k) ==> ReasonToWait(k)
    {
      ghost var o := Here();
      ghost var i, view := RunPass(o);
      PassIsOver(o, i, view, old(queue));
    }

    /**
     `dispatchLoop`. `leaseAcquired` is the coordinator's answer; `remotePlane` says workers are claimed remotely.
     For every outcome of every creation and start: the caps on active workers, on active writers of a repository and
     on workers of a job hold afterwards or the pass added nothing to them, and the limit on schedulable workers is
     exceeded by workers left idle alone; only jobs that were queued are touched; no worker or job is lost or moved
     back, and a job that ends has failed; a job that stood in the queue and may take more workers still stands there
     and has a reason to wait; and no job was served before its turn.
     */
    method DispatchLoop(leaseAcquired: bool, remotePlane: bool)
      requires Valid() && QueueSpec.OnePerId(queue)
      modifies this
      ensures Valid() && QueueSpec.OnePerId(queue) && dispatching == old(dispatching)
      ensures old(dispatching) || remotePlane || !leaseAcquired ==>
        jobs == old(jobs) && workers == old(workers) && queue == old(queue) && timers == old(timers)
      ensures JobsProgress(old(jobs), jobs, timers, old(nextJobId)) && old(timers) <= timers
      ensures Extends(old(workers), workers)
      ensures |ActiveIn(workers)| <= maxActiveWorkers || ActiveIn(workers) == ActiveIn(old(workers))
      ensures forall repo :: |ActiveWritersIn(workers, repo)| <= maxWriteWorkersPerRepo
                             || ActiveWritersIn(workers, repo) == ActiveWritersIn(old(workers), repo)
      ensures WithinJobLimits(old(jobs), old(workers), workers)
      ensures forall k :: QueueSpec.Holds(old(queue), k) && Waiting(jobs, workers, k) ==> QueueSpec.Holds(queue, k)
      ensures !old(dispatching) && !remotePlane && leaseAcquired ==>
        forall k :: QueueSpec.Holds(old(queue), k) && Waiting(jobs, workers, k) ==> ReasonToWait(k)
      ensures OnlyQueuedTouched(old(queue), queue, old(jobs), jobs, old(workers), workers)
      ensures ExceededByIdleOnly(old(workers), workers, maxActiveWorkers)
      ensures old(dispatching) || remotePlane || !leaseAcquired || PassMakes(old(workers), workers, maxActiveWorkers,
          maxWriteWorkersPerRepo)
      ensures InTurn(QueueSpec.Listed(old(queue)), |QueueSpec.Listed(old(queue))|, jobs, old(workers), workers, workers,
                     maxWriteWorkersPerRepo)
    {
      NothingDispatched(Here(), queue, map[], maxActiveWorkers, maxWriteWorkersPerRepo);
      if dispatching || remotePlane {
        return;
      }
      dispatching := true;
      if leaseAcquired {
        Dispatch();
      }
      dispatching := false;
    }

    // ---- Claims by remote executors ----

    /** `claimRemoteWorker`: the worker is starting, the job dispatching. */
    method ClaimRemoteWorker(worker: Worker, job: Job, outcome: ClaimOutcome) returns (raised: bool, claimed: Worker)
      requires Valid() && worker.workerId in workers && workers[worker.workerId] == worker
               && worker.status == WorkerStatus.Created
      requires job.jobId in jobs && jobs[job.jobId] == job && Linear(job.status)
      modifies this`jobs, this`workers
      ensures Valid() && raised == (outcome != ClaimSucceeds) && claimed == worker.(status := WorkerStatus.Starting)
      ensures workers == if outcome == ClaimFails then old(workers) else old(workers)[worker.workerId := claimed]
      ensures jobs == if outcome.ClaimFails? || outcome.ClaimFailsAfterWorker? then old(jobs)
                      else old(jobs)[job.jobId := job.(status := Destination(job.status, JobStatus.Dispatching))]
    {
      claimed := worker.(status := WorkerStatus.Starting);
      raised := true;
      if outcome == ClaimFails {
        return;
      }
      SetWorkerStatus(worker.workerId, WorkerStatus.Starting);
      if outcome == ClaimFailsAfterWorker {
        return;
      }
      var raised', _ := AdvanceRecord(job, JobStatus.Dispatching);
      raised := outcome != ClaimSucceeds;
    }

    /** Creating and claiming one worker, as far as it gets. */
    method CreateAndClaim(job: Job, create: CreateOutcome, claim: ClaimOutcome) returns (raised: bool, worker: Worker)
      requires Valid() && job.jobId in jobs && jobs[job.jobId] == job && Linear(job.status)
      modifies this`jobs, this`workers, this`nextWorkerId
      ensures Valid() && nextWorkerId == old(nextWorkerId) + 1
      ensures raised == !(create.CreateSucceeds? && claim.ClaimSucceeds?)
      ensures worker == Worker(old(nextWorkerId), job.jobId, WorkerStatus.Starting, job.repoPath,
                               job.isolationMode == Worktree, false)
      ensures raised ==> AtMostIdleWorker(old(workers), workers, worker.workerId)
      ensures !raised ==> workers == old(workers)[worker.workerId := worker]
      ensures job.jobId in jobs && jobs == old(jobs)[job.jobId := jobs[job.jobId]]
      ensures var after := jobs[job.jobId];
        && SameRequest(job, after) && (after.status == job.status
             || after.status == Destination(job.status, JobStatus.Dispatching))
        && (!raised ==> after == job.(status := Destination(job.status, JobStatus.Dispatching),
                                      workerIds := job.workerIds + [worker.workerId]))
    {
      var created;
      raised, created := CreateWorker(job, create);
      worker := created.(status := WorkerStatus.Starting);
      if !raised {
        ghost var listed := jobs[job.jobId];
        raised, worker := ClaimRemoteWorker(created, jobs[job.jobId], claim);
        Overwritten(old(workers), worker.workerId, created, worker);
        Overwritten(old(jobs), job.jobId, listed, jobs[job.jobId]);
      }
    }

    /** The inside of the `try`: prepare the job, create a worker, claim it. */
    method PrepareAndClaim(currentJob: Job, create: CreateOutcome, claim: ClaimOutcome)
      returns (raised: bool, worker: Worker)
      requires Valid() && currentJob.jobId in jobs && jobs[currentJob.jobId] == currentJob && Linear(currentJob.status)
      modifies this`jobs, this`workers, this`nextWorkerId
      ensures Valid() && nextWorkerId == old(nextWorkerId) + 1
      ensures raised == !(create.CreateSucceeds? && claim.ClaimSucceeds?)
      ensures worker == Worker(old(nextWorkerId), currentJob.jobId, WorkerStatus.Starting, currentJob.repoPath,
                               currentJob.isolationMode == Worktree, false)
      ensures raised ==> AtMostIdleWorker(old(workers), workers, worker.workerId)
      ensures !raised ==> workers == old(workers)[worker.workerId := worker]
      ensures currentJob.jobId in jobs && jobs == old(jobs)[currentJob.jobId := jobs[currentJob.jobId]]
      ensures var job := jobs[currentJob.jobId];
        && SameRequest(currentJob, job) && Linear(job.status) && job.status != JobStatus.Queued
        && Rank(currentJob.status) <= Rank(job.status)
        && (!raised ==> job == currentJob.(status := Destination(currentJob.status, JobStatus.Dispatching),
                                           workerIds := currentJob.workerIds + [worker.workerId]))
    {
      var raised', preparedJob := AdvanceRecord(currentJob, JobStatus.Preparing);
      raised, worker := CreateAndClaim(preparedJob, create, claim);
      Overwritten(old(jobs), currentJob.jobId, preparedJob, jobs[currentJob.jobId]);
    }

    /** After a successful claim the job is requeued if it may take more workers. */
    method RequeueIfWaiting(jobId: JobId)
      requires Valid() && QueueSpec.OnePerId(queue) && jobId in jobs && !QueueSpec.Holds(queue, jobId)
      requires Linear(jobs[jobId].status)
      modifies this`queue
      ensures Valid() && QueueSpec.OnePerId(queue)
      ensures forall k :: QueueSpec.Holds(queue, k) <==>
        QueueSpec.Holds(old(queue), k) || (k == jobId && Waiting(jobs, workers, jobId))
    {
      if |SchedulableOf(workers, jobId)| < jobs[jobId].maxWorkers {
        EnqueueJob(jobs[jobId]);
      }
    }

    /**
     The claim of one job that has been taken off the queue. On failure the handler is given the record read before
     the attempt: if that was still queued the handler raises, and the job is left under way with no queue entry and
     no timer; otherwise the job ends failed, as it was before the attempt.
     */
    method ClaimJob(currentJob: Job) returns (result: Claim)
      requires Valid() && QueueSpec.OnePerId(queue) && !QueueSpec.Holds(queue, currentJob.jobId)
      requires currentJob.jobId in jobs && jobs[currentJob.jobId] == currentJob && Linear(currentJob.status)
      modifies this`jobs, this`workers, this`timers, this`queue, this`nextJobId, this`nextWorkerId
      ensures Valid() && QueueSpec.OnePerId(queue) && nextWorkerId == old(nextWorkerId) + 1
      ensures !result.NothingClaimed?
      ensures forall k :: k != currentJob.jobId ==> (QueueSpec.Holds(queue, k) <==> QueueSpec.Holds(old(queue), k))
      ensures result.Claimed? ==>
        && result.worker == Worker(old(nextWorkerId), currentJob.jobId, WorkerStatus.Starting, currentJob.repoPath,
                                   currentJob.isolationMode == Worktree, false)
        && workers == old(workers)[result.worker.workerId := result.worker]
        && jobs == old(jobs)[currentJob.jobId := currentJob.(
             status := Destination(currentJob.status, JobStatus.Dispatching),
             workerIds := currentJob.workerIds + [result.worker.workerId])]
        && timers == old(timers) && (QueueSpec.Holds(queue, currentJob.jobId) <==>
             Waiting(jobs, workers, currentJob.jobId))
      ensures !result.Claimed? ==>
        && result.job == currentJob && queue == old(queue)
        && AtMostIdleWorker(old(workers), workers, old(nextWorkerId))
        && (result.ClaimRejected? <==> currentJob.status == JobStatus.Queued)
      ensures result.ClaimRejected? ==>
        && timers == old(timers) && currentJob.jobId in jobs
             && jobs == old(jobs)[currentJob.jobId := jobs[currentJob.jobId]]
        && Linear(jobs[currentJob.jobId].status) && jobs[currentJob.jobId].status != JobStatus.Queued
      ensures result.ClaimFailed? ==>
        && currentJob.jobId in jobs && jobs[currentJob.jobId] == currentJob.(status := JobStatus.Failed)
        && (timers != old(timers) <==> WillRetry(currentJob, defaultMaxRetries))
    {
      var create: CreateOutcome := *;
      var claim: ClaimOutcome := *;
      ghost var start := jobs;
      var raised, worker := PrepareAndClaim(currentJob, create, claim);
      if !raised {
        RequeueIfWaiting(currentJob.jobId);
        return Claimed(worker);
      }
      var rejected := HandleDispatchFailure(currentJob);
      result := if rejected then ClaimRejected(currentJob) else ClaimFailed(currentJob);
    }

    /**
     A job of the listing that is not claimed: dropped if it may not take more workers, passed over if it conflicts.
     */
    method ConsiderClaim(jobId: JobId, activeWorkers: Workers, activeWorkerCount: nat, ghost queue0: seq<Job>)
      returns (full: bool, claimable: bool)
      requires Valid() && QueueSpec.OnePerId(queue) && activeWorkers == ViewOf(workers)
               && activeWorkerCount == |activeWorkers|
      requires OnlyServedDropped(queue0, queue, jobs, workers)
      modifies this`queue
      ensures Valid() && QueueSpec.OnePerId(queue)
      ensures !(full && claimable)
      ensures claimable <==> Waiting(jobs, workers, jobId) && CanDispatch(activeWorkerCount, maxActiveWorkers)
                             && !PassedOver(jobId, jobs, workers, maxWriteWorkersPerRepo)
      ensures full <==> Waiting(jobs, workers, jobId) && !CanDispatch(activeWorkerCount, maxActiveWorkers)
      ensures if claimable then !QueueSpec.Holds(queue, jobId) else OnlyServedDropped(queue0, queue, jobs, workers)
    {
      full, claimable := false, false;
      if jobId !in jobs || TerminalJob(jobs[jobId].status) {
        RemoveFromQueue(jobId);
        return;
      }
      var currentJob := jobs[jobId];
      if |SchedulableOf(workers, jobId)| >= currentJob.maxWorkers {
        RemoveFromQueue(jobId);
        return;
      }
      if !CanDispatch(activeWorkerCount, maxActiveWorkers) {
        full := true;
        return;
      }
      if HasWriteConflict(currentJob.isolationMode, currentJob.repoPath, activeWorkers, maxWriteWorkersPerRepo) {
        return;
      }
      RemoveFromQueue(jobId);
      claimable := true;
    }

    /**
     `claimRemoteJob`, taken as one step: what a claim does that nothing else comes between. It claims for the first job
     of the listing that may take a worker now, and for no other; it goes by one worker towards the cap on schedulable
     workers and not past it; and jobs that do not take part keep their place in the queue. Nothing in the code makes a
     claim one step: `RemoteClaims` says what holds when claims are interleaved.
     */
    method ClaimRemoteJob(leaseAcquired: bool, remotePlane: bool) returns (result: Claim)
      requires Valid() && QueueSpec.OnePerId(queue)
      modifies this`jobs, this`workers, this`timers, this`queue, this`nextJobId, this`nextWorkerId
      ensures Valid() && QueueSpec.OnePerId(queue)
      ensures !remotePlane || !leaseAcquired ==> result.NothingClaimed? && queue == old(queue)
      ensures result.NothingClaimed? ==>
        && jobs == old(jobs) && workers == old(workers) && timers == old(timers)
        && OnlyServedDropped(old(queue), queue, jobs, workers)
        && (remotePlane && leaseAcquired && CanDispatch(|SchedulableIn(workers)|, maxActiveWorkers) ==>
              forall k :: QueueSpec.Holds(old(queue), k) ==> PassedOver(k, jobs, workers, maxWriteWorkersPerRepo))
      ensures !result.NothingClaimed? ==>
        && CanDispatch(|SchedulableIn(old(workers))|, maxActiveWorkers)
        && ClaimedInTurn(QueueSpec.Listed(old(queue)), if result.Claimed? then result.worker.jobId
             else result.job.jobId,
                         old(jobs), old(workers), maxWriteWorkersPerRepo)
      ensures result.Claimed? ==>
        && |SchedulableIn(workers)| == |SchedulableIn(old(workers))| + 1 <= maxActiveWorkers
        && result.worker.workerId !in old(workers) && result.worker.status == WorkerStatus.Starting
        && workers == old(workers)[result.worker.workerId := result.worker]
        && (QueueSpec.Holds(queue, result.worker.jobId) <==> Waiting(jobs, workers, result.worker.jobId))
      ensures result.Claimed? ==>
        var job := old(jobs)[result.worker.jobId];
        result.worker == Worker(old(nextWorkerId), job.jobId, WorkerStatus.Starting, job.repoPath,
                                job.isolationMode == Worktree, false)
      ensures result.ClaimFailed? || result.ClaimRejected? ==>
        && old(jobs)[result.job.jobId] == result.job
             && (result.ClaimRejected? <==> result.job.status == JobStatus.Queued)
        && !QueueSpec.Holds(queue, result.job.jobId)
      ensures result.ClaimFailed? ==> result.job.jobId in jobs && jobs[result.job.jobId].status == JobStatus.Failed
      ensures result.ClaimRejected? ==>
        timers == old(timers) && result.job.jobId in jobs && Linear(jobs[result.job.jobId].status)
    {
      if !remotePlane || !leaseAcquired {
        return NothingClaimed;
      }
      var jobId := FindClaimable();
      if jobId.None? {
        return NothingClaimed;
      }
      result := ClaimFirst(jobId.value);
    }

    /** The loop over the listing, up to the job to claim. */
    method FindClaimable() returns (found: Option<JobId>)
      requires Valid() && QueueSpec.OnePerId(queue)
      modifies this`queue
      ensures Valid() && QueueSpec.OnePerId(queue)
      ensures found.None? ==> OnlyServedDropped(old(queue), queue, jobs, workers)
      ensures found.None? && CanDispatch(|SchedulableIn(workers)|, maxActiveWorkers) ==>
        forall k :: QueueSpec.Holds(old(queue), k) ==> PassedOver(k, jobs, workers, maxWriteWorkersPerRepo)
      ensures found.Some? ==>
        && CanDispatch(|SchedulableIn(workers)|, maxActiveWorkers)
        && ClaimedInTurn(QueueSpec.Listed(old(queue)), found.value, jobs, workers, maxWriteWorkersPerRepo)
        && !QueueSpec.Holds(queue, found.value) && Waiting(jobs, workers, found.value)
    {
      var queuedJobs := QueueSpec.Listed(queue);
      forall k ensures QueueSpec.Holds(queue, k) <==> exists n :: 0 <= n < |queuedJobs| && queuedJobs[n].jobId == k {
        QueueListing.ListedHolds(queue, k);
      }
      var activeWorkers := ViewOf(workers);
      InitialView(workers, maxActiveWorkers, maxWriteWorkersPerRepo);
      var index := 0;
      while index < |queuedJobs|
        invariant 0 <= index <= |queuedJobs| && Valid() && QueueSpec.OnePerId(queue)
        invariant OnlyServedDropped(old(queue), queue, jobs, workers)
        invariant forall n :: 0 <= n < index ==> PassedOver(queuedJobs[n].jobId, jobs, workers, maxWriteWorkersPerRepo)
      {
        var jobId := queuedJobs[index].jobId;
        var full, claimable := ConsiderClaim(jobId, activeWorkers, |activeWorkers|, old(queue));
        if full {
          return None;
        }
        if claimable {
          return Some(jobId);
        }
        index := index + 1;
      }
      found := None;
    }

    /** The claim as the caller sees it. */
    method ClaimFirst(jobId: JobId) returns (result: Claim)
      requires Valid() && QueueSpec.OnePerId(queue) && !QueueSpec.Holds(queue, jobId) && Waiting(jobs, workers, jobId)
      modifies this`jobs, this`workers, this`timers, this`queue, this`nextJobId, this`nextWorkerId
      ensures Valid() && QueueSpec.OnePerId(queue) && !result.NothingClaimed?
      ensures (if result.Claimed? then result.worker.jobId else result.job.jobId) == jobId
      ensures result.Claimed? ==>
        && |SchedulableIn(workers)| == |SchedulableIn(old(workers))| + 1
        && result.worker == Worker(old(nextWorkerId), jobId, WorkerStatus.Starting, old(jobs)[jobId].repoPath,
                                   old(jobs)[jobId].isolationMode == Worktree, false)
        && workers == old(workers)[result.worker.workerId := result.worker]
        && (QueueSpec.Holds(queue, jobId) <==> Waiting(jobs, workers, jobId))
      ensures result.ClaimFailed? || result.ClaimRejected? ==>
        && old(jobs)[jobId] == result.job && (result.ClaimRejected? <==> result.job.status == JobStatus.Queued)
        && !QueueSpec.Holds(queue, jobId)
      ensures result.ClaimFailed? ==> jobId in jobs && jobs[jobId].status == JobStatus.Failed
      ensures result.ClaimRejected? ==> timers == old(timers) && jobId in jobs && Linear(jobs[jobId].status)
    {
      result := ClaimJob(jobs[jobId]);
      if result.Claimed? {
        OneMoreSchedulable(old(workers), result.worker);
      }
    }
  }
}
