/**
 How workers come to an end by the worker manager's own hand (src/workers/workerManager.ts): their runtime exits, or
 they are stopped, one by one or with their job (`cancelJob`, src/scheduler/scheduler.ts).
 */
module WorkerEnding {
  import opened Wrappers
  import opened StateMachine
  import opened Models
  import opened Policies
  import opened JobLifecycle
  import opened Scheduling
  import R = Recovery
  import QueueSpec

  type Workers = map<WorkerId, Worker>
  type Jobs = map<JobId, Job>

  datatype Exit = Exit(exitCode: Option<int>, signaled: bool, timedOut: bool)

  function ExecutionStatusOf(cancelRequested: bool, exit: Exit): Execution {
    if cancelRequested then Execution.Canceled
    else if exit.timedOut then Execution.TimedOut
    else if exit.exitCode == Some(0) then Execution.Completed
    else Execution.Failed
  }

  function ExitStatusOf(cancelRequested: bool, exit: Exit): WorkerStatus {
    if cancelRequested then WorkerStatus.Canceled
    else if exit.timedOut then WorkerStatus.Failed
    else if exit.exitCode == Some(0) then WorkerStatus.Finished
    else if exit.signaled then WorkerStatus.Lost
    else WorkerStatus.Failed
  }

  /**
   What an exit means: the worker has finished if it exited with code 0 and nobody asked it to stop or timed it out, is
   canceled if it was asked to stop, lost if a signal ended it with none of these, and has failed otherwise. A result
   file stands as it is; the result recorded when there is none agrees with the status.
   */
  predicate Exited(status: WorkerStatus, result: Execution, cancelRequested: bool, exit: Exit,
      collected: Option<Execution>) {
    var inTime := !cancelRequested && !exit.timedOut;
    && (status == WorkerStatus.Finished <==> inTime && exit.exitCode == Some(0))
    && (status == WorkerStatus.Canceled <==> cancelRequested)
    && (status == WorkerStatus.Lost <==> inTime && exit.exitCode != Some(0) && exit.signaled)
    && (status == WorkerStatus.Failed <==>
          !cancelRequested && (exit.timedOut || (exit.exitCode != Some(0) && !exit.signaled)))
    && (collected.Some? ==> result == collected.value)
    && (collected.None? ==>
          && (result == Execution.Completed <==> status == WorkerStatus.Finished)
          && (result == Execution.Canceled <==> status == WorkerStatus.Canceled)
          && (result == Execution.TimedOut <==> status == WorkerStatus.Failed && exit.timedOut))
  }

  lemma ExitMeans(cancelRequested: bool, exit: Exit, collected: Option<Execution>)
    ensures Exited(ExitStatusOf(cancelRequested, exit),
        if collected.Some? then collected.value else ExecutionStatusOf(cancelRequested, exit), cancelRequested, exit,
        collected)
  {
  }

  /** What stopping does to a worker whose runtime is not held. */
  datatype Stop = AlreadyEnded | Reattached | EndsAs(status: WorkerStatus) | StopFails

  function StopIdentity(ob: R.Observation): R.Identity {
    if ob.session.Some? && !ob.session.value.closed then ob.session.value.identity else R.WorkerIdentity(ob)
  }

  function StopOf(status: WorkerStatus, ob: R.Observation): Stop {
    if TerminalWorker(status) then AlreadyEnded
    else if ob.mode == R.SessionMode && ob.reattaches then Reattached
    else
      var identity := StopIdentity(ob);
      var reattachable := ob.session.Some? && !ob.session.value.closed && R.CanReattach(identity);
      match R.Classify(status, false, R.IsLive(identity, ob.alive), reattachable)
      case TerminateOnly => if R.Terminates(identity, ob.dies) then EndsAs(WorkerStatus.Canceled) else StopFails
      case ReattachSupported => EndsAs(WorkerStatus.Lost)
      case FinalizeCanceledCreated => EndsAs(WorkerStatus.Canceled)
      case FinalizeLost => EndsAs(WorkerStatus.Lost)
      case TerminalNoop => AlreadyEnded
  }

  /** Whoever ends a worker without its runtime follows the table. */
  lemma StopIsLegal(status: WorkerStatus, ob: R.Observation)
    ensures StopOf(status, ob).EndsAs? ==>
      ValidWorker(status, StopOf(status, ob).status) && TerminalWorker(StopOf(status, ob).status)
  {
  }

  /** The process a stop may end: that of the open session, or else the worker's own. */
  predicate HasProcess(ob: R.Observation) {
    var open := ob.session.Some? && !ob.session.value.closed;
    var mode := if open then ob.session.value.identity.mode else ob.mode;
    var pid := if open then ob.session.value.identity.pid else ob.pid;
    mode != R.SessionMode && pid.Some? && ob.alive
  }

  /**
   What becomes of a worker nobody's runtime holds when it is stopped: a session that is taken up again is only told to
   stop; otherwise the worker is canceled if it was never started or its process dies, and lost if it has no process or
   an open session nobody could take up. Stopping fails exactly if its process does not die.
   */
  lemma StopMeans(status: WorkerStatus, ob: R.Observation)
    ensures
      var stop := StopOf(status, ob);
      var open := ob.session.Some? && !ob.session.value.closed && R.CanReattach(ob.session.value.identity);
      var toEnd := !TerminalWorker(status) && !(ob.mode == R.SessionMode && ob.reattaches);
      var hasProcess := !open && HasProcess(ob);
      && (stop == AlreadyEnded <==> TerminalWorker(status))
      && (stop == Reattached <==> !TerminalWorker(status) && ob.mode == R.SessionMode && ob.reattaches)
      && (stop == EndsAs(WorkerStatus.Canceled) <==>
            toEnd && (status == WorkerStatus.Created || (hasProcess && ob.dies)))
      && (stop == EndsAs(WorkerStatus.Lost) <==> toEnd && status != WorkerStatus.Created && !hasProcess)
      && (stop == StopFails <==> toEnd && status != WorkerStatus.Created && hasProcess && !ob.dies)
  {
  }

  /** The result recorded with it: canceled with the worker, and otherwise failed, or timed out if it had. */
  lemma StopResultMeans(worker: Worker, status: WorkerStatus)
    ensures
      var result := StopResult(worker, status);
      && (result == Execution.Canceled <==> status == WorkerStatus.Canceled)
      && (result == Execution.TimedOut <==> status != WorkerStatus.Canceled && worker.timedOut)
      && (result == Execution.Failed <==> status != WorkerStatus.Canceled && !worker.timedOut)
  {
  }

  /** A job after one of its workers has changed: closed if that was the last one under way. */
  function JobsAggregated(jobs: Jobs, workers: Workers, results: map<WorkerId, Execution>, j: JobId): Jobs {
    if j in jobs && ReadyToAggregate(jobs[j], workers)
    then jobs[j := jobs[j].(status := AggregatedStatus(j, workers, results))] else jobs
  }

  /**
   The end of a worker closes its job exactly if the job is under way, all its workers have ended, and there are as many
   as it lists; nothing else of the job changes, and no other job.
   */
  lemma LastWorkerCloses(jobs: Jobs, workers: Workers, results: map<WorkerId, Execution>, j: JobId, k: JobId)
    requires k in jobs && jobs[k].jobId == k
    ensures
      var own := set w | w in workers && workers[w].jobId == k;
      var after := JobsAggregated(jobs, workers, results, j);
      var closes := k == j && !TerminalJob(jobs[k].status) && own != {} && |own| >= |jobs[k].workerIds|
          && forall w :: w in own ==> TerminalWorker(workers[w].status);
      && k in after && after[k] == jobs[k].(status := after[k].status)
      && (after[k] != jobs[k] <==> closes)
      && (closes ==> TerminalJob(after[k].status) && after[k].status == AggregatedStatus(k, workers, results))
  {
    assert WorkersOf(workers, k) == set w | w in workers && workers[w].jobId == k;
  }

  /** This worker is ended by being stopped. */
  predicate EndedByStop(workers: Workers, w: WorkerId, runtimeHandles: set<WorkerId>,
      world: WorkerId -> R.Observation) {
    w in workers && w !in runtimeHandles && StopOf(workers[w].status, world(w)).EndsAs?
  }

  /** The workers after the cancellation has reached some of them: those whose runtime nobody holds have ended. */
  function Stopped(workers: Workers, reached: set<WorkerId>, runtimeHandles: set<WorkerId>,
      world: WorkerId -> R.Observation): Workers {
    map w | w in workers ::
      if w in reached && EndedByStop(workers, w, runtimeHandles, world)
      then workers[w].(status := StopOf(workers[w].status, world(w)).status) else workers[w]
  }

  /** The result recorded for a worker ended without its runtime. */
  function StopResult(worker: Worker, status: WorkerStatus): Execution {
    if status.Canceled? then Execution.Canceled else if worker.timedOut then Execution.TimedOut else Execution.Failed
  }

  function ResultsOfStopping(results: map<WorkerId, Execution>, workers: Workers, reached: set<WorkerId>,
      runtimeHandles: set<WorkerId>, world: WorkerId -> R.Observation): map<WorkerId, Execution> {
    results + map w | w in workers && w in reached && EndedByStop(workers, w, runtimeHandles, world) ::
      StopResult(workers[w], StopOf(workers[w].status, world(w)).status)
  }

  /** The runtimes held once some workers have been reached: a session that is reattached to be told to stop is held. */
  function HandlesOfStopping(workers: Workers, reached: set<WorkerId>, runtimeHandles: set<WorkerId>,
      world: WorkerId -> R.Observation): set<WorkerId> {
    runtimeHandles + set w | w in workers && w in reached && StopOf(workers[w].status, world(w)).Reattached?
  }

  /** A worker whose detached process does not die. */
  predicate Unstoppable(workers: Workers, w: WorkerId, runtimeHandles: set<WorkerId>,
      world: WorkerId -> R.Observation) {
    w in workers && w !in runtimeHandles && StopOf(workers[w].status, world(w)).StopFails?
  }

  lemma OneMoreStopped(start: Workers, reached: set<WorkerId>, runtimeHandles: set<WorkerId>,
      world: WorkerId -> R.Observation, w: WorkerId)
    requires w in start && w !in reached
    ensures Stopped(start, reached, runtimeHandles, world)[w] == start[w]
    ensures Stopped(start, reached + {w}, runtimeHandles, world) ==
        if EndedByStop(start, w, runtimeHandles, world)
        then Stopped(start, reached, runtimeHandles, world)[w :=
          start[w].(status := StopOf(start[w].status, world(w)).status)]
        else Stopped(start, reached, runtimeHandles, world)
  {
  }

  lemma OneMoreResult(results: map<WorkerId, Execution>, start: Workers, reached: set<WorkerId>,
      runtimeHandles: set<WorkerId>, world: WorkerId -> R.Observation, w: WorkerId)
    requires w in start && w !in reached
    ensures var so := ResultsOfStopping(results, start, reached, runtimeHandles, world);
      ResultsOfStopping(results, start, reached + {w}, runtimeHandles, world) ==
        if EndedByStop(start, w, runtimeHandles, world)
        then so[w := StopResult(start[w], StopOf(start[w].status, world(w)).status)] else so
  {
  }

  lemma OneMoreHandle(start: Workers, reached: set<WorkerId>, runtimeHandles: set<WorkerId>,
      world: WorkerId -> R.Observation, w: WorkerId)
    requires w in start && w !in reached
    ensures var so := HandlesOfStopping(start, reached, runtimeHandles, world);
      && (w in so <==> w in runtimeHandles)
      && HandlesOfStopping(start, reached + {w}, runtimeHandles, world) ==
           if w !in runtimeHandles && StopOf(start[w].status, world(w)).Reattached? then so + {w} else so
  {
  }

  /** What a cancellation leaves of a worker: it has ended by a legal transition, or somebody's runtime will end it. */
  lemma StoppedMeans(start: Workers, reached: set<WorkerId>, runtimeHandles: set<WorkerId>,
      world: WorkerId -> R.Observation, w: WorkerId)
    requires w in start
    ensures var after := Stopped(start, reached, runtimeHandles, world)[w];
      && after == start[w].(status := after.status)
      && (after.status == start[w].status
          || (ValidWorker(start[w].status, after.status) && TerminalWorker(after.status)))
      && (w in reached && !Unstoppable(start, w, runtimeHandles, world) ==>
            TerminalWorker(after.status) || w in HandlesOfStopping(start, reached, runtimeHandles, world))
  {
    StopIsLegal(start[w].status, world(w));
  }

  /** Nobody's runtime holds the worker, it is under way, and its session is not taken up again. */
  predicate LeftToEnd(worker: Worker, ob: R.Observation, held: bool) {
    !held && !TerminalWorker(worker.status) && !(ob.mode == R.SessionMode && ob.reattaches)
  }

  /** It has a process that does not die. */
  predicate Survives(worker: Worker, ob: R.Observation) {
    && worker.status != WorkerStatus.Created && HasProcess(ob) && !ob.dies
    && !(ob.session.Some? && !ob.session.value.closed && R.CanReattach(ob.session.value.identity))
  }

  /**
   Exactly whom a cancellation ends: those it reaches that are left to end and whose process does not survive it. Their
   result is recorded; every other worker and result is as it was.
   */
  lemma EndedIff(results: map<WorkerId, Execution>, start: Workers, reached: set<WorkerId>,
      runtimeHandles: set<WorkerId>, world: WorkerId -> R.Observation, w: WorkerId)
    requires w in start
    ensures
      var after := Stopped(start, reached, runtimeHandles, world)[w];
      var results' := ResultsOfStopping(results, start, reached, runtimeHandles, world);
      var ends := w in reached && LeftToEnd(start[w], world(w), w in runtimeHandles) && !Survives(start[w], world(w));
      && (after.status == WorkerStatus.Canceled || after.status == WorkerStatus.Lost <==>
            ends || start[w].status == WorkerStatus.Canceled || start[w].status == WorkerStatus.Lost)
      && (!ends ==> after == start[w])
      && (w in results' <==> ends || w in results)
      && (!ends && w in results ==> results'[w] == results[w])
      && (ends ==> (results'[w] == Execution.Canceled <==> after.status == WorkerStatus.Canceled))
  {
    StopMeans(start[w].status, world(w));
  }

  /** Exactly which runtimes are held then: those held before, and those of the reached sessions taken up again. */
  lemma HeldIff(start: Workers, reached: set<WorkerId>, runtimeHandles: set<WorkerId>,
      world: WorkerId -> R.Observation, w: WorkerId)
    requires w in start
    ensures w in HandlesOfStopping(start, reached, runtimeHandles, world) <==>
            || w in runtimeHandles
            || (w in reached && !TerminalWorker(start[w].status) && world(w).mode == R.SessionMode
                && world(w).reattaches)
  {
    StopMeans(start[w].status, world(w));
  }

  /** What a cancellation set out from. */
  datatype Stand = Stand(jobs: Jobs, workers: Workers, results: map<WorkerId, Execution>, handles: set<WorkerId>,
      requested: set<WorkerId>)

  class WorkerManager {
    const store: Scheduler
    var runtimeHandles: set<WorkerId>
    var cancelRequested: set<WorkerId>

    constructor (store: Scheduler)
      ensures this.store == store && runtimeHandles == {} && cancelRequested == {}
    {
      this.store, runtimeHandles, cancelRequested := store, {}, {};
    }

    /** Writes a terminal worker with its result and aggregates its job. */
    method EndWorker(workerId: WorkerId, ended: Worker, result: Execution)
      requires store.Valid() && workerId in store.workers && ended.workerId == workerId
      modifies store`jobs, store`workers, store`results
      ensures store.Valid()
      ensures store.workers == old(store.workers)[workerId := ended]
      ensures store.results == old(store.results)[workerId := result]
      ensures store.jobs == JobsAggregated(old(store.jobs), store.workers, store.results, ended.jobId)
    {
      store.workers := store.workers[workerId := ended];
      store.results := store.results[workerId := result];
      store.AggregateJobIfReady(ended.jobId);
    }

    /**
     `#handleWorkerExit`. It meets an illegal transition exactly when the worker is still starting; otherwise a worker
     under way ends in the status its exit means, and its job is closed if it was the last. From active or finishing
     this takes legal writes; one that is only created is ended without asking the table.
     */
    method HandleWorkerExit(workerId: WorkerId, exit: Exit, collected: Option<Execution>) returns (raised: bool)
      requires store.Valid()
      modifies this`runtimeHandles, store`jobs, store`workers, store`results
      ensures store.Valid()
      ensures raised <==> workerId in old(store.workers) && old(store.workers)[workerId].status == WorkerStatus.Starting
      ensures !raised ==> runtimeHandles == old(runtimeHandles) - {workerId}
      ensures raised || workerId !in old(store.workers) || TerminalWorker(old(store.workers)[workerId].status) ==>
        store.jobs == old(store.jobs) && store.workers == old(store.workers) && store.results == old(store.results)
      ensures !raised && workerId in old(store.workers) && !TerminalWorker(old(store.workers)[workerId].status) ==>
        var worker := old(store.workers)[workerId];
        var status := ExitStatusOf(workerId in cancelRequested, exit);
        && (worker.status.Created? || worker.status.Finishing? || ValidWorker(worker.status, WorkerStatus.Finishing))
        && ValidWorker(WorkerStatus.Finishing, status) && TerminalWorker(status)
        && store.workers == old(store.workers)[workerId := worker.(status := status, timedOut := exit.timedOut)]
        && store.results == old(store.results)[workerId :=
             if collected.Some? then collected.value else ExecutionStatusOf(workerId in cancelRequested, exit)]
        && store.jobs == JobsAggregated(old(store.jobs), store.workers, store.results, worker.jobId)
      ensures !raised && workerId in old(store.workers) && !TerminalWorker(old(store.workers)[workerId].status) ==>
        && workerId in store.workers && workerId in store.results
        && Exited(store.workers[workerId].status, store.results[workerId], workerId in cancelRequested, exit, collected)
    {
      if workerId !in store.workers || TerminalWorker(store.workers[workerId].status) {
        runtimeHandles := runtimeHandles - {workerId};
        return false;
      }
      var finishingWorker := store.workers[workerId];
      if finishingWorker.status.Starting? || finishingWorker.status.Active? {
        if !ValidWorker(finishingWorker.status, WorkerStatus.Finishing) {
          return true;
        }
        finishingWorker := finishingWorker.(status := WorkerStatus.Finishing);
        store.SetWorkerStatus(workerId, WorkerStatus.Finishing);
        Overwritten(old(store.workers), workerId, finishingWorker,
                    finishingWorker.(status := ExitStatusOf(workerId in cancelRequested, exit),
                        timedOut := exit.timedOut));
      }
      var result := if collected.Some? then collected.value else ExecutionStatusOf(workerId in cancelRequested, exit);
      runtimeHandles := runtimeHandles - {workerId};
      var status := ExitStatusOf(workerId in cancelRequested, exit);
      ExitMeans(workerId in cancelRequested, exit, collected);
      EndWorker(workerId, finishingWorker.(status := status, timedOut := exit.timedOut), result);
      raised := false;
    }

    /**
     `stopWorker`: a held runtime is only told to stop, and one that can be reattached is held from then on; without one
     the worker is ended here with its result, or stopping fails.
     */
    method StopWorker(workerId: WorkerId, ob: R.Observation) returns (raised: bool)
      requires store.Valid()
      modifies this`cancelRequested, this`runtimeHandles, store`jobs, store`workers, store`results
      ensures store.Valid()
      ensures workerId !in old(store.workers) ==> raised && cancelRequested == old(cancelRequested)
      ensures workerId in old(store.workers) ==>
        && cancelRequested == old(cancelRequested) + {workerId}
        && (raised <==> workerId !in old(runtimeHandles) && StopOf(old(store.workers)[workerId].status, ob).StopFails?)
      ensures runtimeHandles == old(runtimeHandles)
              + (if workerId in old(store.workers) && workerId !in old(runtimeHandles)
                    && StopOf(old(store.workers)[workerId].status, ob).Reattached? then {workerId} else {})
      ensures EndedByStop(old(store.workers), workerId, old(runtimeHandles), _ => ob) ==>
        var worker := old(store.workers)[workerId];
        var ended := worker.(status := StopOf(worker.status, ob).status);
        && ValidWorker(worker.status, ended.status) && TerminalWorker(ended.status)
        && store.workers == old(store.workers)[workerId := ended]
        && store.results == old(store.results)[workerId := StopResult(worker, ended.status)]
        && store.jobs == JobsAggregated(old(store.jobs), store.workers, store.results, ended.jobId)
      ensures !EndedByStop(old(store.workers), workerId, old(runtimeHandles), _ => ob) ==>
        store.jobs == old(store.jobs) && store.workers == old(store.workers) && store.results == old(store.results)
    {
      if workerId !in store.workers {
        return true;
      }
      var worker := store.workers[workerId];
      cancelRequested := cancelRequested + {workerId};
      if workerId in runtimeHandles {
        return false;
      }
      StopIsLegal(worker.status, ob);
      match StopOf(worker.status, ob) {
        case AlreadyEnded => raised := false;
        case Reattached =>
          runtimeHandles := runtimeHandles + {workerId};
          raised := false;
        case StopFails => raised := true;
        case EndsAs(status) =>
          EndWorker(workerId, worker.(status := status), StopResult(worker, status));
          raised := false;
      }
    }

    /**
     `cancelJob`. A job under way becomes canceled and leaves the queue, for good: nothing its workers do later moves
     it again. Every worker of it that may still run is told to stop, unless one of them cannot be; no other job and no
     other job's worker is touched.
     */
    method CancelJob(jobId: JobId, world: WorkerId -> R.Observation)
      returns (raised: bool, ghost reached: set<WorkerId>)
      requires store.Valid() && QueueSpec.OnePerId(store.queue)
      modifies this`cancelRequested, this`runtimeHandles, store`jobs, store`workers, store`results, store`queue
      ensures store.Valid() && QueueSpec.OnePerId(store.queue)
      ensures jobId !in old(store.jobs) || TerminalJob(old(store.jobs)[jobId].status) ==>
        raised && store.jobs == old(store.jobs) && store.workers == old(store.workers)
            && store.queue == old(store.queue)
      ensures jobId in old(store.jobs) && !TerminalJob(old(store.jobs)[jobId].status) ==>
        && ValidJob(old(store.jobs)[jobId].status, JobStatus.Canceled)
        && store.jobs == old(store.jobs)[jobId := old(store.jobs)[jobId].(status := JobStatus.Canceled)]
        && store.queue == QueueSpec.Remove(old(store.queue), jobId) && !QueueSpec.Holds(store.queue, jobId)
        && reached <= SchedulableOf(old(store.workers), jobId)
             && (!raised ==> reached == SchedulableOf(old(store.workers), jobId))
        && cancelRequested == old(cancelRequested) + reached
        && store.workers == Stopped(old(store.workers), reached, old(runtimeHandles), world)
        && store.results ==
             ResultsOfStopping(old(store.results), old(store.workers), reached, old(runtimeHandles), world)
        && runtimeHandles == HandlesOfStopping(old(store.workers), reached, old(runtimeHandles), world)
        && (raised ==>
              exists w :: w in SchedulableOf(old(store.workers), jobId)
                          && Unstoppable(old(store.workers), w, old(runtimeHandles), world))
    {
      if jobId !in store.jobs || TerminalJob(store.jobs[jobId].status) {
        return true, {};
      }
      var canceledJob := store.jobs[jobId].(status := JobStatus.Canceled);
      store.jobs := store.jobs[jobId := canceledJob];
      store.RemoveFromQueue(jobId);
      raised, reached := StopEach(SchedulableOf(store.workers, jobId), jobId, world);
    }

    /**
     A claim that raises because its job has been canceled since it was read, in two steps: the failure handler writes
     Failed over Canceled from the record read, and makes a clone of the canceled job while it has retries left.
     */
    method CancelThenFail(currentJob: Job, world: WorkerId -> R.Observation) returns (raised: bool)
      requires store.Valid() && QueueSpec.OnePerId(store.queue)
      requires currentJob.jobId in store.jobs && store.jobs[currentJob.jobId] == currentJob
      requires !TerminalJob(currentJob.status) && currentJob.status != JobStatus.Queued
      modifies this`cancelRequested, this`runtimeHandles
      modifies store`jobs, store`workers, store`results, store`queue, store`timers, store`nextJobId
      ensures store.Valid() && !QueueSpec.Holds(store.queue, currentJob.jobId)
      ensures currentJob.jobId in store.jobs && store.jobs[currentJob.jobId] == currentJob.(status := JobStatus.Failed)
      ensures store.timers == old(store.timers) + if WillRetry(currentJob, store.defaultMaxRetries)
              then [RetryClone(currentJob, old(store.nextJobId))] else []
    {
      ghost var reached;
      raised, reached := CancelJob(currentJob.jobId, world);
      assert store.jobs[currentJob.jobId].status == JobStatus.Canceled;
      var rejected := store.HandleDispatchFailure(currentJob);
      assert !rejected;
    }

    /** Where a cancellation of these workers stands: those of `ids` not in `remaining` have been told to stop. */
    ghost predicate Stopping(o: Stand, ids: set<WorkerId>, remaining: set<WorkerId>, world: WorkerId -> R.Observation)
      reads this, store
    {
      && store.Valid() && store.jobs == o.jobs && remaining <= ids
      && cancelRequested == o.requested + (ids - remaining)
      && store.workers == Stopped(o.workers, ids - remaining, o.handles, world)
      && store.results == ResultsOfStopping(o.results, o.workers, ids - remaining, o.handles, world)
      && runtimeHandles == HandlesOfStopping(o.workers, ids - remaining, o.handles, world)
    }

    /** Stopping a worker of a closed job ends it or leaves it. */
    method StopNext(w: WorkerId, world: WorkerId -> R.Observation, ghost o: Stand, ghost ids: set<WorkerId>,
        ghost remaining: set<WorkerId>)
      returns (raised: bool)
      requires Stopping(o, ids, remaining, world) && w in remaining && w in o.workers
      requires o.workers[w].jobId in o.jobs && TerminalJob(o.jobs[o.workers[w].jobId].status)
      modifies this`cancelRequested, this`runtimeHandles, store`jobs, store`workers, store`results
      ensures Stopping(o, ids, remaining - {w}, world)
      ensures raised ==> Unstoppable(o.workers, w, o.handles, world)
    {
      OneMoreStopped(o.workers, ids - remaining, o.handles, world, w);
      OneMoreResult(o.results, o.workers, ids - remaining, o.handles, world, w);
      OneMoreHandle(o.workers, ids - remaining, o.handles, world, w);
      raised := StopWorker(w, world(w));
      assert ids - (remaining - {w}) == (ids - remaining) + {w};
    }

    method StopEach(ids: set<WorkerId>, ghost jobId: JobId, world: WorkerId -> R.Observation)
      returns (raised: bool, ghost reached: set<WorkerId>)
      requires store.Valid() && jobId in store.jobs && TerminalJob(store.jobs[jobId].status)
      requires forall w :: w in ids ==> w in store.workers && store.workers[w].jobId == jobId
      modifies this`cancelRequested, this`runtimeHandles, store`jobs, store`workers, store`results
      ensures reached <= ids && (!raised ==> reached == ids)
      ensures store.Valid() && store.jobs == old(store.jobs) && cancelRequested == old(cancelRequested) + reached
      ensures store.workers == Stopped(old(store.workers), reached, old(runtimeHandles), world)
      ensures store.results ==
        ResultsOfStopping(old(store.results), old(store.workers), reached, old(runtimeHandles), world)
      ensures runtimeHandles == HandlesOfStopping(old(store.workers), reached, old(runtimeHandles), world)
      ensures raised ==> exists w :: w in ids && Unstoppable(old(store.workers), w, old(runtimeHandles), world)
    {
      ghost var o := Stand(store.jobs, store.workers, store.results, runtimeHandles, cancelRequested);
      var remaining := ids;
      raised := false;
      while remaining != {} && !raised
        invariant Stopping(o, ids, remaining, world)
        invariant raised ==> exists w :: w in ids && Unstoppable(o.workers, w, o.handles, world)
        decreases |remaining|
      {
        var w :| w in remaining;
        raised := StopNext(w, world, o, ids, remaining);
        remaining := remaining - {w};
      }
      reached := ids - remaining;
    }
  }
}
