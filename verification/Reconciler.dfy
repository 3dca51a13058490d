/**
 Reconciliation after a restart (src/reconcile/reconciler.ts): workers nobody runs are repaired, then every job under
 way is requeued, closed, or left to the workers it still has.
 */
module Reconciliation {
  import opened Wrappers
  import opened StateMachine
  import opened Models
  import opened Policies
  import opened JobLifecycle
  import opened Recovery
  import QueueSpec

  type Jobs = map<JobId, Job>
  type Workers = map<WorkerId, Worker>

  /** What is seen of each worker, and what its result file holds. */
  datatype World = World(seen: WorkerId -> Observation, collected: WorkerId -> Option<Execution>)

  datatype Repair = Untouched | Reattached | Finalized(status: WorkerStatus) | TerminationFailed

  /** What becomes of a worker. */
  function RepairOf(status: WorkerStatus, ob: Observation, force: bool, controlPlane: bool): Repair {
    if TerminalWorker(status) then Untouched
    else
      match RecoveryDisposition(status, ob, force, controlPlane)
      case None => Untouched
      case Some(TerminalNoop) => Untouched
      case Some(ReattachSupported) => if ob.reattaches then Reattached else Finalized(WorkerStatus.Lost)
      case Some(TerminateOnly) => if ob.dies then Finalized(WorkerStatus.Lost) else TerminationFailed
      case Some(FinalizeLost) => Finalized(WorkerStatus.Lost)
      case Some(FinalizeCanceledCreated) => Finalized(WorkerStatus.Canceled)
  }

  type Fates = map<WorkerId, Repair>

  function FatesOf(workers: Workers, world: World, force: bool, controlPlane: bool): Fates {
    map w | w in workers :: RepairOf(workers[w].status, world.seen(w), force, controlPlane)
  }

  predicate Finalizes(fates: Fates, w: WorkerId) {
    w in fates && fates[w].Finalized?
  }

  predicate Fails(fates: Fates, w: WorkerId) {
    w in fates && fates[w].TerminationFailed?
  }

  /** The workers after those of `done` have met their fate. */
  function RepairedIn(workers: Workers, done: set<WorkerId>, fates: Fates): Workers {
    map w | w in workers ::
      if w in done && Finalizes(fates, w) then workers[w].(status := fates[w].status) else workers[w]
  }

  /** The jobs a worker of which was finalised. */
  function RepairedJobs(workers: Workers, done: set<WorkerId>, fates: Fates): set<JobId> {
    set w | w in workers && w in done && Finalizes(fates, w) :: workers[w].jobId
  }

  lemma RepairedInStep(start: Workers, done: set<WorkerId>, w: WorkerId, fates: Fates)
    requires w in start && w !in done
    ensures RepairedIn(start, done, fates)[w] == start[w]
    ensures RepairedIn(start, done + {w}, fates) ==
            if Finalizes(fates, w) then RepairedIn(start, done, fates)[w := start[w].(status := fates[w].status)]
                else RepairedIn(start, done, fates)
  {
  }

  lemma RepairedJobsStep(start: Workers, done: set<WorkerId>, w: WorkerId, fates: Fates)
    requires w in start && w !in done
    ensures RepairedJobs(start, done + {w}, fates) ==
            RepairedJobs(start, done, fates) + (if Finalizes(fates, w) then {start[w].jobId} else {})
  {
    var a, b := RepairedJobs(start, done + {w}, fates), RepairedJobs(start, done, fates);
    forall j ensures j in a <==> j in b + (if Finalizes(fates, w) then {start[w].jobId} else {}) {
      if j in b {
        var v :| v in start && v in done && Finalizes(fates, v) && start[v].jobId == j;
        assert v in done + {w};
      }
      if Finalizes(fates, w) {
        assert w in done + {w};
      }
    }
  }

  function ResultFor(w: Worker, world: World): Execution {
    if world.collected(w.workerId).Some? then world.collected(w.workerId).value
    else if w.status.Canceled? then Execution.Canceled else Execution.Failed
  }

  function RecoveredStatus(workers: Workers, jobId: JobId, world: World): JobStatus {
    WorstStatus(set w | w in WorkersOf(workers, jobId) :: ResultFor(workers[w], world))
  }

  /** A result file says failed or timed out, or there is none and the worker was not canceled. */
  predicate Spoils(collected: Option<Execution>, status: WorkerStatus) {
    || collected == Some(Execution.Failed) || collected == Some(Execution.TimedOut)
    || (collected == None && status != WorkerStatus.Canceled)
  }

  /**
   The status is the one these workers give their job: completed if each has a result file that says so, failed if one
   of them spoils it, and canceled otherwise.
   */
  ghost predicate ClosedBy(status: JobStatus, workers: Workers, own: set<WorkerId>, world: World)
    requires own <= workers.Keys
  {
    var completed := forall w :: w in own ==> world.collected(w) == Some(Execution.Completed);
    var failed := exists w :: w in own && Spoils(world.collected(w), workers[w].status);
    && (status == JobStatus.Completed <==> completed)
    && (status == JobStatus.Failed <==> failed)
    && (status == JobStatus.Canceled <==> !completed && !failed)
  }

  lemma WorstCloses(workers: Workers, own: set<WorkerId>, world: World)
    requires own <= workers.Keys && forall w :: w in own ==> workers[w].workerId == w
    ensures ClosedBy(WorstStatus(set w | w in own :: ResultFor(workers[w], world)), workers, own, world)
  {
    var results := set w | w in own :: ResultFor(workers[w], world);
    forall w | w in own
      ensures ResultFor(workers[w], world) in results
      ensures ResultFor(workers[w], world) == Execution.Completed <==> world.collected(w) == Some(Execution.Completed)
      ensures ResultFor(workers[w], world).Failed? || ResultFor(workers[w], world).TimedOut? <==>
              Spoils(world.collected(w), workers[w].status)
    {
    }
  }

  predicate AllTerminal(workers: Workers, jobId: JobId) {
    forall w :: w in WorkersOf(workers, jobId) ==> TerminalWorker(workers[w].status)
  }

  /** Jobs under way are requeued if a worker of theirs was just finalised, or if they have none. */
  predicate Requeues(job: Job, workers: Workers, repaired: set<JobId>) {
    !TerminalJob(job.status) && (job.jobId in repaired || WorkersOf(workers, job.jobId) == {})
  }

  /** Other jobs under way are closed once all their workers have ended. */
  predicate Closes(job: Job, workers: Workers, repaired: set<JobId>) {
    && !TerminalJob(job.status) && job.jobId !in repaired
    && WorkersOf(workers, job.jobId) != {} && AllTerminal(workers, job.jobId)
  }

  function JobsAfter(jobs: Jobs, done: set<JobId>, workers: Workers, repaired: set<JobId>, world: World): Jobs {
    map j | j in jobs ::
      if j in done && Closes(jobs[j], workers, repaired)
      then jobs[j].(status := RecoveredStatus(workers, j, world)) else jobs[j]
  }

  /** The queue after the jobs listed have been requeued in that order. */
  function QueueAfter(queue: seq<Job>, listing: seq<JobId>, jobs: Jobs, workers: Workers,
      repaired: set<JobId>): seq<Job>
    requires forall j :: j in listing ==> j in jobs
    decreases |listing|
  {
    if listing == [] then queue
    else
      var last := listing[|listing| - 1];
      var before := QueueAfter(queue, listing[..|listing| - 1], jobs, workers, repaired);
      if Requeues(jobs[last], workers, repaired) then QueueSpec.Enqueue(before, jobs[last]) else before
  }

  /** Every key once, in any order. */
  ghost predicate Lists<T(!new)>(listing: seq<T>, keys: set<T>) {
    && (forall k :: k in listing <==> k in keys)
    && forall i, j :: 0 <= i < j < |listing| ==> listing[i] != listing[j]
  }

  function Prefix<T>(listing: seq<T>, n: nat): set<T>
    requires n <= |listing|
  {
    set k | k in listing[..n]
  }

  lemma PrefixStep<T>(listing: seq<T>, n: nat)
    requires n < |listing|
    ensures Prefix(listing, n + 1) == Prefix(listing, n) + {listing[n]}
  {
    assert listing[..n + 1] == listing[..n] + [listing[n]];
  }

  lemma WholePrefix<T(!new)>(listing: seq<T>, keys: set<T>)
    requires Lists(listing, keys)
    ensures Prefix(listing, |listing|) == keys
  {
    assert listing[..|listing|] == listing;
  }

  /** The first loop after `n` workers of the listing, none of which failed to be terminated. */
  ghost predicate RepairedUpTo(start: Workers, listing: seq<WorkerId>, n: nat, fates: Fates, workers: Workers,
      repaired: set<JobId>)
    requires n <= |listing|
  {
    && workers == RepairedIn(start, Prefix(listing, n), fates)
    && repaired == RepairedJobs(start, Prefix(listing, n), fates)
    && forall k :: 0 <= k < n ==> !Fails(fates, listing[k])
  }

  /** The loop stopped at a worker that could not be terminated: those before it have met their fate. */
  ghost predicate RaisedAt(start: Workers, listing: seq<WorkerId>, fates: Fates, workers: Workers) {
    exists n :: 0 <= n < |listing| && Fails(fates, listing[n])
        && workers == RepairedIn(start, Prefix(listing, n), fates)
  }

  lemma NothingRepaired(start: Workers, listing: seq<WorkerId>, fates: Fates)
    ensures RepairedUpTo(start, listing, 0, fates, start, {})
  {
    assert start == RepairedIn(start, Prefix(listing, 0), fates);
  }

  lemma NextWorkerUntouched(start: Workers, listing: seq<WorkerId>, n: nat, fates: Fates, now: Workers,
      repaired: set<JobId>)
    requires n < |listing| && Lists(listing, start.Keys) && RepairedUpTo(start, listing, n, fates, now, repaired)
    ensures listing[n] in now && now[listing[n]] == start[listing[n]]
  {
    assert listing[n] in listing && listing[n] !in listing[..n];
  }

  lemma OneMoreRepaired(start: Workers, listing: seq<WorkerId>, n: nat, fates: Fates, workers: Workers,
      repaired: set<JobId>,
                        workers': Workers, repaired': set<JobId>)
    requires n < |listing| && Lists(listing, start.Keys) && !Fails(fates, listing[n])
    requires RepairedUpTo(start, listing, n, fates, workers, repaired)
    requires var w := listing[n];
      && w in start
      && workers' == (if Finalizes(fates, w) then workers[w := start[w].(status := fates[w].status)] else workers)
      && repaired' == repaired + (if Finalizes(fates, w) then {start[w].jobId} else {})
    ensures RepairedUpTo(start, listing, n + 1, fates, workers', repaired')
  {
    PrefixStep(listing, n);
    assert listing[n] !in listing[..n];
    RepairedInStep(start, Prefix(listing, n), listing[n], fates);
    RepairedJobsStep(start, Prefix(listing, n), listing[n], fates);
  }

  lemma AllRepaired(start: Workers, listing: seq<WorkerId>, fates: Fates, after: Workers, repaired: set<JobId>)
    requires Lists(listing, start.Keys) && fates.Keys == start.Keys
    requires RepairedUpTo(start, listing, |listing|, fates, after, repaired)
    ensures forall w :: !Fails(fates, w)
    ensures after == RepairedIn(start, start.Keys, fates) && repaired == RepairedJobs(start, start.Keys, fates)
  {
    WholePrefix(listing, start.Keys);
    forall w ensures !Fails(fates, w) {
      assert w in start ==> w in listing;
    }
  }

  /** The second loop after `n` jobs of the listing. */
  ghost predicate RecoveredUpTo(start: Jobs, queue0: seq<Job>, listing: seq<JobId>, n: nat, workers: Workers,
      repaired: set<JobId>,
                                world: World, jobs: Jobs, queue: seq<Job>)
    requires n <= |listing| && forall j :: j in listing ==> j in start
  {
    && jobs == JobsAfter(start, Prefix(listing, n), workers, repaired, world)
    && queue == QueueAfter(queue0, listing[..n], start, workers, repaired)
  }

  lemma NothingRecovered(start: Jobs, queue0: seq<Job>, listing: seq<JobId>, workers: Workers, repaired: set<JobId>,
      world: World)
    requires forall j :: j in listing ==> j in start
    ensures RecoveredUpTo(start, queue0, listing, 0, workers, repaired, world, start, queue0)
  {
    assert start == JobsAfter(start, Prefix(listing, 0), workers, repaired, world);
  }

  lemma NextJobUntouched(start: Jobs, queue0: seq<Job>, listing: seq<JobId>, n: nat, workers: Workers,
      repaired: set<JobId>,
                         world: World, jobs: Jobs, queue: seq<Job>)
    requires Lists(listing, start.Keys) && n < |listing|
    requires RecoveredUpTo(start, queue0, listing, n, workers, repaired, world, jobs, queue)
    ensures listing[n] in jobs && jobs[listing[n]] == start[listing[n]]
  {
    assert listing[n] in listing && listing[n] !in listing[..n];
  }

  lemma OneMoreRecovered(start: Jobs, queue0: seq<Job>, listing: seq<JobId>, n: nat, workers: Workers,
      repaired: set<JobId>,
                         world: World, jobs: Jobs, queue: seq<Job>, jobs': Jobs, queue': seq<Job>)
    requires Lists(listing, start.Keys) && n < |listing| && forall j :: j in start ==> start[j].jobId == j
    requires RecoveredUpTo(start, queue0, listing, n, workers, repaired, world, jobs, queue)
    requires var job := start[listing[n]];
      && jobs' == (if Closes(job, workers, repaired)
           then jobs[job.jobId := job.(status := RecoveredStatus(workers, job.jobId, world))] else jobs)
      && queue' == (if Requeues(job, workers, repaired) then QueueSpec.Enqueue(queue, job) else queue)
    ensures RecoveredUpTo(start, queue0, listing, n + 1, workers, repaired, world, jobs', queue')
  {
    var j := listing[n];
    PrefixStep(listing, n);
    assert j in listing && j !in listing[..n];
    assert listing[..n + 1][..n] == listing[..n] && listing[..n + 1][n] == j;
    JobsAfterStep(start, Prefix(listing, n), j, workers, repaired, world);
  }

  lemma JobsAfterStep(start: Jobs, done: set<JobId>, j: JobId, workers: Workers, repaired: set<JobId>, world: World)
    requires j in start && start[j].jobId == j && j !in done
    ensures JobsAfter(start, done + {j}, workers, repaired, world) ==
            var before := JobsAfter(start, done, workers, repaired, world);
            if Closes(start[j], workers, repaired)
            then before[j := start[j].(status := RecoveredStatus(workers, j, world))] else before
  {
  }

  class Reconciler {
    const controlPlane: bool
    var jobs: Jobs
    var workers: Workers
    var queue: seq<Job>
    var running: bool

    ghost predicate Valid()
      reads this
    {
      && (forall j :: j in jobs ==> jobs[j].jobId == j)
      && (forall w :: w in workers ==> workers[w].workerId == w)
    }

    constructor (controlPlane: bool, jobs: Jobs, workers: Workers, queue: seq<Job>)
      requires forall j :: j in jobs ==> jobs[j].jobId == j
      requires forall w :: w in workers ==> workers[w].workerId == w
      ensures Valid() && this.controlPlane == controlPlane && !running
      ensures this.jobs == jobs && this.workers == workers && this.queue == queue
    {
      this.controlPlane, this.jobs, this.workers, this.queue, running := controlPlane, jobs, workers, queue, false;
    }

    /** `#repairWorker` on a worker that has a disposition. An illegal transition cannot happen. */
    method RepairWorker(workerId: WorkerId, found: Disposition, ob: Observation) returns (raised: bool, finalized: bool)
      requires Valid() && workerId in workers && !TerminalWorker(workers[workerId].status)
      requires found == Classify(workers[workerId].status, false, IsLive(RecoveryIdentity(ob), ob.alive),
                                 RecoveryIdentity(ob).mode == SessionMode && CanReattach(RecoveryIdentity(ob)))
      modifies this`workers
      ensures Valid()
      ensures var repair := RepairOf(old(workers)[workerId].status, ob, true, controlPlane);
        && raised == repair.TerminationFailed? && finalized == repair.Finalized?
        && workers == if repair.Finalized?
                      then old(workers)[workerId := old(workers)[workerId].(status := repair.status)] else old(workers)
    {
      var disposition := found;
      raised, finalized := false, false;
      if disposition == TerminalNoop {
        return;
      }
      if disposition == ReattachSupported {
        if ob.reattaches {
          return;
        }
        disposition := FinalizeLost;
      }
      if disposition == TerminateOnly {
        if !Terminates(RecoveryIdentity(ob), ob.dies) {
          raised := true;
          return;
        }
      }
      var targetStatus := if disposition == FinalizeCanceledCreated then WorkerStatus.Canceled else WorkerStatus.Lost;
      assert ValidWorker(workers[workerId].status, targetStatus);
      workers := workers[workerId := workers[workerId].(status := targetStatus)];
      finalized := true;
    }

    /** One turn of the first loop. */
    method VisitNext(ghost start: Workers, listing: seq<WorkerId>, index: nat, world: World, force: bool,
        ghost fates: Fates,
                     repairedJobIds: set<JobId>) returns (raised: bool, repaired: set<JobId>)
      requires Valid() && index < |listing| && Lists(listing, start.Keys)
               && fates == FatesOf(start, world, force, controlPlane)
      requires RepairedUpTo(start, listing, index, fates, workers, repairedJobIds)
      modifies this`workers
      ensures Valid() && raised == Fails(fates, listing[index])
      ensures raised ==> RaisedAt(start, listing, fates, workers)
      ensures !raised ==> RepairedUpTo(start, listing, index + 1, fates, workers, repaired)
    {
      repaired := repairedJobIds;
      NextWorkerUntouched(start, listing, index, fates, workers, repaired);
      var jobId := workers[listing[index]].jobId;
      var finalized := false;
      raised, finalized := VisitWorker(listing[index], world, force, fates);
      if finalized {
        repaired := repaired + {jobId};
      }
      if !raised {
        OneMoreRepaired(start, listing, index, fates, old(workers), repairedJobIds, workers, repaired);
      }
    }

    /** The first loop: workers in the order they are listed, until one cannot be terminated. */
    method RepairListed(listing: seq<WorkerId>, world: World, force: bool, ghost fates: Fates)
      returns (raised: bool, repaired: set<JobId>)
      requires Valid() && Lists(listing, workers.Keys) && fates == FatesOf(workers, world, force, controlPlane)
      modifies this`workers
      ensures Valid()
      ensures if raised then RaisedAt(old(workers), listing, fates, workers)
              else RepairedUpTo(old(workers), listing, |listing|, fates, workers, repaired)
    {
      NothingRepaired(workers, listing, fates);
      repaired := {};
      raised := false;
      var index := 0;
      while index < |listing|
        invariant 0 <= index <= |listing| && Valid()
        invariant RepairedUpTo(old(workers), listing, index, fates, workers, repaired)
      {
        raised, repaired := VisitNext(old(workers), listing, index, world, force, fates, repaired);
        if raised {
          return;
        }
        index := index + 1;
      }
    }

    method RepairWorkers(listing: seq<WorkerId>, world: World, force: bool) returns (raised: bool, repaired: set<JobId>)
      requires Valid() && Lists(listing, workers.Keys)
      modifies this`workers
      ensures Valid()
      ensures var fates := FatesOf(old(workers), world, force, controlPlane);
        && (raised <==> exists w :: Fails(fates, w))
        && (raised ==> RaisedAt(old(workers), listing, fates, workers))
        && (!raised ==> workers == RepairedIn(old(workers), old(workers).Keys, fates)
                        && repaired == RepairedJobs(old(workers), old(workers).Keys, fates))
    {
      ghost var fates := FatesOf(workers, world, force, controlPlane);
      raised, repaired := RepairListed(listing, world, force, fates);
      if !raised {
        AllRepaired(old(workers), listing, fates, workers, repaired);
      }
    }

    method VisitWorker(workerId: WorkerId, world: World, force: bool, ghost fates: Fates)
      returns (raised: bool, finalized: bool)
      requires Valid() && workerId in workers && workerId in fates
      requires fates[workerId] == RepairOf(workers[workerId].status, world.seen(workerId), force, controlPlane)
      modifies this`workers
      ensures Valid()
      ensures raised == Fails(fates, workerId) && finalized == Finalizes(fates, workerId)
      ensures workers == if finalized
              then old(workers)[workerId := old(workers)[workerId].(status := fates[workerId].status)] else old(workers)
    {
      raised, finalized := false, false;
      if TerminalWorker(workers[workerId].status) {
        return;
      }
      var disposition := RecoveryDisposition(workers[workerId].status, world.seen(workerId), force, controlPlane);
      if disposition.None? {
        return;
      }
      raised, finalized := RepairWorker(workerId, disposition.value, world.seen(workerId));
    }

    method CollectResults(own: set<WorkerId>, world: World) returns (results: seq<Execution>)
      requires own <= workers.Keys
      ensures forall e :: e in results <==> exists w :: w in own && ResultFor(workers[w], world) == e
    {
      results := [];
      var remaining := own;
      while remaining != {}
        invariant remaining <= own
        invariant forall e :: e in results <==> exists w :: w in own - remaining && ResultFor(workers[w], world) == e
        decreases |remaining|
      {
        var w :| w in remaining;
        ghost var before := own - remaining;
        remaining := remaining - {w};
        assert own - remaining == before + {w};
        results := results + [ResultFor(workers[w], world)];
      }
      assert own - remaining == own;
    }

    /** `#finalizeRecoveredJob`: always possible without an illegal transition. */
    method FinalizeRecoveredJob(job: Job, own: set<WorkerId>, world: World)
      requires Valid() && job.jobId in jobs && jobs[job.jobId] == job && !TerminalJob(job.status)
      requires own == WorkersOf(workers, job.jobId)
      modifies this`jobs
      ensures Valid()
      ensures jobs == old(jobs)[job.jobId := job.(status := RecoveredStatus(workers, job.jobId, world))]
      ensures ClosedBy(jobs[job.jobId].status, workers, own, world)
    {
      WorstCloses(workers, own, world);
      var results := CollectResults(own, world);
      var written, raised := ReconcilerAdvanceJobToStatus(job.status, JobStatus.Aggregating);
      assert !raised && EndOf(job.status, written) == JobStatus.Aggregating;
      var finalStatus := MapJobResultToJobStatus(DetermineJobResultStatus(JobStatus.Aggregating, results));
      ClosesFromAggregating(results);
      ClosesWithWorst(results, set w | w in own :: ResultFor(workers[w], world));
      var written', raised' := ReconcilerAdvanceJobToStatus(JobStatus.Aggregating, finalStatus);
      assert !raised' && EndOf(JobStatus.Aggregating, written') == finalStatus;
      jobs := jobs[job.jobId := job.(status := finalStatus)];
    }

    /** The second loop: jobs in the order they are listed. */
    method RecoverListed(listing: seq<JobId>, repaired: set<JobId>, world: World)
      requires Valid() && Lists(listing, jobs.Keys)
      modifies this`jobs, this`queue
      ensures Valid() && RecoveredUpTo(old(jobs), old(queue), listing, |listing|, workers, repaired, world, jobs, queue)
    {
      NothingRecovered(jobs, queue, listing, workers, repaired, world);
      var index := 0;
      while index < |listing|
        invariant 0 <= index <= |listing| && Valid()
        invariant RecoveredUpTo(old(jobs), old(queue), listing, index, workers, repaired, world, jobs, queue)
      {
        VisitNextJob(old(jobs), old(queue), listing, index, repaired, world);
        index := index + 1;
      }
    }

    method VisitNextJob(ghost start: Jobs, ghost queue0: seq<Job>, listing: seq<JobId>, index: nat,
        repaired: set<JobId>, world: World)
      requires Valid() && Lists(listing, start.Keys) && index < |listing| && forall j :: j in start ==>
               start[j].jobId == j
      requires RecoveredUpTo(start, queue0, listing, index, workers, repaired, world, jobs, queue)
      modifies this`jobs, this`queue
      ensures Valid() && RecoveredUpTo(start, queue0, listing, index + 1, workers, repaired, world, jobs, queue)
    {
      NextJobUntouched(start, queue0, listing, index, workers, repaired, world, jobs, queue);
      VisitJob(listing[index], repaired, world);
      OneMoreRecovered(start, queue0, listing, index, workers, repaired, world, old(jobs), old(queue), jobs, queue);
    }

    method RecoverJobs(listing: seq<JobId>, repaired: set<JobId>, world: World)
      requires Valid() && Lists(listing, jobs.Keys)
      modifies this`jobs, this`queue
      ensures Valid() && jobs == JobsAfter(old(jobs), old(jobs).Keys, workers, repaired, world)
      ensures queue == QueueAfter(old(queue), listing, old(jobs), workers, repaired)
    {
      RecoverListed(listing, repaired, world);
      assert listing[..|listing|] == listing;
      WholePrefix(listing, old(jobs).Keys);
    }

    method VisitJob(jobId: JobId, repaired: set<JobId>, world: World)
      requires Valid() && jobId in jobs
      modifies this`jobs, this`queue
      ensures Valid()
      ensures jobs == if Closes(old(jobs)[jobId], workers, repaired)
                      then old(jobs)[jobId := old(jobs)[jobId].(status := RecoveredStatus(workers, jobId, world))]
                          else old(jobs)
      ensures queue == if Requeues(old(jobs)[jobId], workers, repaired)
              then QueueSpec.Enqueue(old(queue), old(jobs)[jobId]) else old(queue)
    {
      var refreshedJob := jobs[jobId];
      if TerminalJob(refreshedJob.status) {
        return;
      }
      var jobWorkers := WorkersOf(workers, jobId);
      if jobId in repaired {
        queue := QueueSpec.Enqueue(queue, refreshedJob);
        return;
      }
      if jobWorkers != {} && forall w :: w in jobWorkers ==> TerminalWorker(workers[w].status) {
        FinalizeRecoveredJob(refreshedJob, jobWorkers, world);
        return;
      }
      if exists w :: w in jobWorkers && !TerminalWorker(workers[w].status) {
        return;
      }
      queue := QueueSpec.Enqueue(queue, refreshedJob);
    }

    /** `reconcile`, exactly: it raises only when a detached process does not die, and then has touched no job. */
    method Reconcile(workerListing: seq<WorkerId>, jobListing: seq<JobId>, world: World, force: bool)
      returns (raised: bool)
      requires Valid() && Lists(workerListing, workers.Keys) && Lists(jobListing, jobs.Keys)
      modifies this
      ensures Valid() && running == old(running)
      ensures old(running) ==> !raised && jobs == old(jobs) && workers == old(workers) && queue == old(queue)
      ensures !old(running) ==> (raised <==> exists w :: Fails(FatesOf(old(workers), world, force, controlPlane), w))
      ensures raised ==> jobs == old(jobs) && queue == old(queue)
      ensures raised ==> RaisedAt(old(workers), workerListing, FatesOf(old(workers), world, force, controlPlane),
              workers)
      ensures !old(running) && !raised ==>
        var fates := FatesOf(old(workers), world, force, controlPlane);
        var repaired := RepairedJobs(old(workers), old(workers).Keys, fates);
        && workers == RepairedIn(old(workers), old(workers).Keys, fates)
        && jobs == JobsAfter(old(jobs), old(jobs).Keys, workers, repaired, world)
        && queue == QueueAfter(old(queue), jobListing, old(jobs), workers, repaired)
    {
      if running {
        return false;
      }
      running := true;
      var repaired;
      raised, repaired := RepairWorkers(workerListing, world, force);
      if !raised {
        RecoverJobs(jobListing, repaired, world);
      }
      running := false;
    }
  }

  // ---- What a reconciliation achieves ----

  /** The state a reconciliation works on, as a value, and a whole pass over it in which every termination succeeds. */
  datatype State = State(jobs: Jobs, workers: Workers, queue: seq<Job>)

  ghost predicate StateValid(s: State) {
    (forall j :: j in s.jobs ==> s.jobs[j].jobId == j) && forall w :: w in s.workers ==> s.workers[w].workerId == w
  }

  function Reconciled(s: State, listing: seq<JobId>, world: World, force: bool, controlPlane: bool): State
    requires forall j :: j in listing ==> j in s.jobs
  {
    var fates := FatesOf(s.workers, world, force, controlPlane);
    var workers := RepairedIn(s.workers, s.workers.Keys, fates);
    var repaired := RepairedJobs(s.workers, s.workers.Keys, fates);
    State(JobsAfter(s.jobs, s.jobs.Keys, workers, repaired, world), workers,
        QueueAfter(s.queue, listing, s.jobs, workers, repaired))
  }

  lemma {:induction false} QueueAfterHolds(queue: seq<Job>, listing: seq<JobId>, jobs: Jobs, workers: Workers,
      repaired: set<JobId>, k: JobId)
    requires forall j :: j in listing ==> j in jobs && jobs[j].jobId == j
    ensures QueueSpec.Holds(QueueAfter(queue, listing, jobs, workers, repaired), k) <==>
            QueueSpec.Holds(queue, k) || (k in listing && Requeues(jobs[k], workers, repaired))
    ensures QueueSpec.OnePerId(queue) ==> QueueSpec.OnePerId(QueueAfter(queue, listing, jobs, workers, repaired))
    decreases |listing|
  {
    if listing != [] {
      var front, last := listing[..|listing| - 1], listing[|listing| - 1];
      assert listing == front + [last];
      QueueAfterHolds(queue, front, jobs, workers, repaired, k);
      var before := QueueAfter(queue, front, jobs, workers, repaired);
      if Requeues(jobs[last], workers, repaired) {
        QueueSpec.EnqueueHolds(before, jobs[last], k);
        if QueueSpec.OnePerId(queue) {
          QueueSpec.QueueStepKeepsOnePerId(before, QueueSpec.EnqueueOp(jobs[last]));
        }
      }
    }
  }

  /** A job moves forward or stays; if it is still under way, it was requeued or has a worker under way. */
  lemma JobIsCovered(jobs: Jobs, workers: Workers, repaired: set<JobId>, world: World, j: JobId)
    requires j in jobs && jobs[j].jobId == j
    ensures var status := JobsAfter(jobs, jobs.Keys, workers, repaired, world)[j].status;
      && Reaches(jobs[j].status, status)
      && (!TerminalJob(status) ==> Requeues(jobs[j], workers, repaired) || !AllTerminal(workers, j))
  {
  }

  /** Coverage: afterwards every job under way stands in the queue or has a worker under way. */
  lemma NoJobIsStranded(s: State, listing: seq<JobId>, world: World, force: bool, controlPlane: bool, j: JobId)
    requires StateValid(s) && Lists(listing, s.jobs.Keys) && j in s.jobs
    ensures var s' := Reconciled(s, listing, world, force, controlPlane);
      && j in s'.jobs && Reaches(s.jobs[j].status, s'.jobs[j].status)
      && (!TerminalJob(s'.jobs[j].status) ==> QueueSpec.Holds(s'.queue, j) || !AllTerminal(s'.workers, j))
  {
    var fates := FatesOf(s.workers, world, force, controlPlane);
    var workers, repaired := RepairedIn(s.workers, s.workers.Keys, fates),
        RepairedJobs(s.workers, s.workers.Keys, fates);
    JobIsCovered(s.jobs, workers, repaired, world, j);
    QueueAfterHolds(s.queue, listing, s.jobs, workers, repaired, j);
  }

  /**
   Every worker nobody runs has ended or is held again; the others are as they were. Every write is a legal transition.
   */
  lemma WorkersAreRepaired(s: State, listing: seq<JobId>, world: World, force: bool, controlPlane: bool, w: WorkerId)
    requires StateValid(s) && Lists(listing, s.jobs.Keys) && w in s.workers
    requires !Fails(FatesOf(s.workers, world, force, controlPlane), w)
    ensures
      var before := s.workers[w].status;
      var after := Reconciled(s, listing, world, force, controlPlane).workers[w].status;
      && (before == after || (ValidWorker(before, after) && TerminalWorker(after)))
      && (RecoveryDisposition(before, world.seen(w), force, controlPlane).Some? ==>
            TerminalWorker(after) || RepairOf(before, world.seen(w), force, controlPlane) == Reattached)
      && (RecoveryDisposition(before, world.seen(w), force, controlPlane).None? ==> after == before)
  {
    RepairIsLegal(s.workers[w].status, world.seen(w), force, controlPlane);
  }

  lemma RepairIsLegal(status: WorkerStatus, ob: Observation, force: bool, controlPlane: bool)
    ensures var repair := RepairOf(status, ob, force, controlPlane);
      && (repair.Finalized? ==> ValidWorker(status, repair.status) && TerminalWorker(repair.status))
      && (repair.Untouched? ==> TerminalWorker(status) || RecoveryDisposition(status, ob, force, controlPlane).None?)
      && (RecoveryDisposition(status, ob, force, controlPlane).None? ==> repair == Untouched)
      && (TerminalWorker(status) ==> repair == Untouched)
  {
  }

  /** Looking again at the same world finds nothing more to repair. */
  lemma RepairIsIdempotent(workers: Workers, world: World, force: bool, controlPlane: bool)
    ensures var once := RepairedIn(workers, workers.Keys, FatesOf(workers, world, force, controlPlane));
      && RepairedIn(once, once.Keys, FatesOf(once, world, force, controlPlane)) == once
      && RepairedJobs(once, once.Keys, FatesOf(once, world, force, controlPlane)) == {}
  {
    var fates := FatesOf(workers, world, force, controlPlane);
    var once := RepairedIn(workers, workers.Keys, fates);
    forall w ensures !Finalizes(FatesOf(once, world, force, controlPlane), w) {
      if w in workers {
        RepairIsLegal(workers[w].status, world.seen(w), force, controlPlane);
      }
    }
  }

  /**
   Reconciling twice is not reconciling once: a job requeued because a worker of it was finalised is closed by the next
   pass, if it is not dispatched in between, exactly when none of its workers is left under way.
   */
  lemma SecondPassClosesRequeuedJob(s: State, listing: seq<JobId>, world: World, force: bool, controlPlane: bool,
      j: JobId)
    requires StateValid(s) && Lists(listing, s.jobs.Keys) && j in s.jobs && !TerminalJob(s.jobs[j].status)
    requires j in RepairedJobs(s.workers, s.workers.Keys, FatesOf(s.workers, world, force, controlPlane))
    ensures var once := Reconciled(s, listing, world, force, controlPlane);
      && once.jobs[j] == s.jobs[j] && QueueSpec.Holds(once.queue, j)
      && (TerminalJob(Reconciled(once, listing, world, force, controlPlane).jobs[j].status) <==>
           AllTerminal(once.workers, j))
  {
    FirstPassRequeues(s, listing, world, force, controlPlane, j);
    RepairIsIdempotent(s.workers, world, force, controlPlane);
    SecondPass(Reconciled(s, listing, world, force, controlPlane), listing, world, force, controlPlane, j);
  }

  lemma FirstPassRequeues(s: State, listing: seq<JobId>, world: World, force: bool, controlPlane: bool, j: JobId)
    requires StateValid(s) && Lists(listing, s.jobs.Keys) && j in s.jobs && !TerminalJob(s.jobs[j].status)
    requires j in RepairedJobs(s.workers, s.workers.Keys, FatesOf(s.workers, world, force, controlPlane))
    ensures var once := Reconciled(s, listing, world, force, controlPlane);
      && StateValid(once) && once.jobs.Keys == s.jobs.Keys
      && once.jobs[j] == s.jobs[j] && QueueSpec.Holds(once.queue, j) && WorkersOf(once.workers, j) != {}
  {
    var fates := FatesOf(s.workers, world, force, controlPlane);
    var once := Reconciled(s, listing, world, force, controlPlane);
    QueueAfterHolds(s.queue, listing, s.jobs, once.workers, RepairedJobs(s.workers, s.workers.Keys, fates), j);
    var w :| w in s.workers && Finalizes(fates, w) && s.workers[w].jobId == j;
    assert w in WorkersOf(once.workers, j);
  }

  /** When no worker is to be repaired, a job under way that has workers is closed exactly if they have all ended. */
  lemma SecondPass(s: State, listing: seq<JobId>, world: World, force: bool, controlPlane: bool, j: JobId)
    requires StateValid(s) && Lists(listing, s.jobs.Keys) && j in s.jobs && !TerminalJob(s.jobs[j].status)
    requires var fates := FatesOf(s.workers, world, force, controlPlane);
      RepairedIn(s.workers, s.workers.Keys, fates) == s.workers && RepairedJobs(s.workers, s.workers.Keys, fates) == {}
    requires WorkersOf(s.workers, j) != {}
    ensures TerminalJob(Reconciled(s, listing, world, force, controlPlane).jobs[j].status) <==>
            AllTerminal(s.workers, j)
  {
  }

  /** Jobs are requeued in listing order, latest update first: a queue of equals can come out reversed. */
  lemma FifoOrderIsLost(a: Job, b: Job, workers: Workers)
    requires a.jobId != b.jobId && a.priority == b.priority
    requires Requeues(a, workers, {}) && Requeues(b, workers, {})
    ensures var jobs: Jobs := map[a.jobId := a, b.jobId := b];
      QueueAfter([a, b], [b.jobId, a.jobId], jobs, workers, {}) == [b, a]
  {
    var jobs: Jobs := map[a.jobId := a, b.jobId := b];
    var listing := [b.jobId, a.jobId];
    assert listing[..1] == [b.jobId] && listing[..1][..0] == [];
    QueueSpec.RemoveIsSplice([a, b], 1);
    assert QueueAfter([a, b], listing[..1], jobs, workers, {}) == [a] + [b] == [a, b];
    QueueSpec.RemoveIsSplice([a, b], 0);
    assert [a, b][1..] == [b];
  }
}
