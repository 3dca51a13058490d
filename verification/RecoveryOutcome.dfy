/**
 What a reconciliation makes of every worker and every job (src/reconcile/reconciler.ts), said of the statuses before
 and after, of what is seen of the workers, and of their result files.
 */
module RecoveryOutcome {
  import opened Wrappers
  import opened StateMachine
  import opened Models
  import opened JobLifecycle
  import opened Recovery
  import opened Reconciliation
  import QueueSpec
  import Policies

  /** The workers of a job. */
  function Own(workers: Workers, j: JobId): set<WorkerId> {
    set w | w in workers && workers[w].jobId == j
  }

  // ---- Workers ----

  /** A worker is looked at when it is stale and gives no sign of life, or when recovery is forced. */
  predicate LookedAt(worker: Worker, ob: Observation, force: bool, controlPlane: bool) {
    !TerminalWorker(worker.status) && (force || (ob.stale && !(controlPlane && ob.heartbeatActive)))
  }

  /** It has an open session that can be taken up again. */
  predicate HasOpenSession(ob: Observation) {
    ob.session.Some? && !ob.session.value.closed && CanReattach(ob.session.value.identity)
  }

  /** It has a process of its own that lives. */
  predicate HasProcess(ob: Observation) {
    ob.mode != SessionMode && ob.pid.Some? && ob.alive
  }

  /** What becomes of it, by its status and what is seen of it. */
  lemma RepairMeans(worker: Worker, ob: Observation, force: bool, controlPlane: bool)
    ensures
      var repair := RepairOf(worker.status, ob, force, controlPlane);
      var survives := if HasOpenSession(ob) then ob.reattaches else HasProcess(ob) && !ob.dies;
      && (repair == Finalized(WorkerStatus.Canceled) <==>
            LookedAt(worker, ob, force, controlPlane) && worker.status == WorkerStatus.Created)
      && (repair == Finalized(WorkerStatus.Lost) <==>
            LookedAt(worker, ob, force, controlPlane) && worker.status != WorkerStatus.Created && !survives)
      && (repair == TerminationFailed <==>
            && LookedAt(worker, ob, force, controlPlane) && worker.status != WorkerStatus.Created
            && !HasOpenSession(ob) && survives)
      && (repair.Finalized? ==> repair.status == WorkerStatus.Canceled || repair.status == WorkerStatus.Lost)
  {
  }

  /**
   The fate of a worker. One never started is canceled; one whose session is taken up again is left as it is, and so is
   one whose process does not die, which makes the reconciliation raise; any other is lost.
   */
  lemma WorkerFate(s: State, listing: seq<JobId>, world: World, force: bool, controlPlane: bool, w: WorkerId)
    requires StateValid(s) && Lists(listing, s.jobs.Keys) && w in s.workers
    ensures
      var ob := world.seen(w);
      var survives := if HasOpenSession(ob) then ob.reattaches else HasProcess(ob) && !ob.dies;
      var s' := Reconciled(s, listing, world, force, controlPlane);
      && w in s'.workers
      && s'.workers[w] ==
           (if !LookedAt(s.workers[w], ob, force, controlPlane) then s.workers[w]
            else if s.workers[w].status == WorkerStatus.Created
              then s.workers[w].(status := WorkerStatus.Canceled)
            else if survives then s.workers[w]
            else s.workers[w].(status := WorkerStatus.Lost))
  {
    WorkersAfter(s, listing, world, force, controlPlane);
    RepairMeans(s.workers[w], world.seen(w), force, controlPlane);
  }

  lemma WorkersAfter(s: State, listing: seq<JobId>, world: World, force: bool, controlPlane: bool)
    requires forall j :: j in listing ==> j in s.jobs
    ensures var s' := Reconciled(s, listing, world, force, controlPlane);
      && s'.workers.Keys == s.workers.Keys
      && forall w :: w in s.workers ==>
           var repair := RepairOf(s.workers[w].status, world.seen(w), force, controlPlane);
           s'.workers[w] ==
             if repair.Finalized? then s.workers[w].(status := repair.status) else s.workers[w]
  {
  }

  /** The reconciliation raises exactly if it means to end a process that does not die. */
  lemma RaisesIff(workers: Workers, world: World, force: bool, controlPlane: bool, w: WorkerId)
    ensures Fails(FatesOf(workers, world, force, controlPlane), w) <==>
            && w in workers && workers[w].status != WorkerStatus.Created
            && LookedAt(workers[w], world.seen(w), force, controlPlane) && !HasOpenSession(world.seen(w))
            && HasProcess(world.seen(w)) && !world.seen(w).dies
  {
    if w in workers {
      RepairMeans(workers[w], world.seen(w), force, controlPlane);
    }
  }

  // ---- Jobs ----

  /** This pass has ended a worker of the job. */
  predicate EndedNow(before: Workers, after: Workers, j: JobId) {
    exists w :: w in Own(before, j) && w in after && after[w].status != before[w].status
  }

  lemma EndedNowIffRepaired(s: State, listing: seq<JobId>, world: World, force: bool, controlPlane: bool, j: JobId)
    requires StateValid(s) && Lists(listing, s.jobs.Keys)
    ensures var workers := Reconciled(s, listing, world, force, controlPlane).workers;
      EndedNow(s.workers, workers, j) <==>
        j in RepairedJobs(s.workers, s.workers.Keys, FatesOf(s.workers, world, force, controlPlane))
  {
    var fates := FatesOf(s.workers, world, force, controlPlane);
    var workers := Reconciled(s, listing, world, force, controlPlane).workers;
    forall w | w in s.workers
      ensures w in workers && (Finalizes(fates, w) <==> workers[w].status != s.workers[w].status)
    {
      RepairIsLegal(s.workers[w].status, world.seen(w), force, controlPlane);
    }
  }

  /**
   The fate of a job under way: requeued if it has no worker or this pass has ended one of them, closed if they had all
   ended before, and otherwise left as it is. Nothing else is moved in the queue, and a closed job stays as it is.
   */
  lemma JobFate(s: State, listing: seq<JobId>, world: World, force: bool, controlPlane: bool, j: JobId)
    requires StateValid(s) && Lists(listing, s.jobs.Keys) && j in s.jobs
    ensures
      var s' := Reconciled(s, listing, world, force, controlPlane);
      var own := Own(s.workers, j);
      var underWay := !TerminalJob(s.jobs[j].status);
      var requeued := underWay && (own == {} || EndedNow(s.workers, s'.workers, j));
      && j in s'.jobs && s'.jobs[j] == s.jobs[j].(status := s'.jobs[j].status)
      && (QueueSpec.Holds(s'.queue, j) <==> QueueSpec.Holds(s.queue, j) || requeued)
      && (TerminalJob(s'.jobs[j].status) <==>
            !underWay || (!requeued && forall w :: w in own ==> TerminalWorker(s.workers[w].status)))
      && (!underWay || !TerminalJob(s'.jobs[j].status) ==> s'.jobs[j] == s.jobs[j])
  {
    var s' := Reconciled(s, listing, world, force, controlPlane);
    var fates := FatesOf(s.workers, world, force, controlPlane);
    var repaired := RepairedJobs(s.workers, s.workers.Keys, fates);
    EndedNowIffRepaired(s, listing, world, force, controlPlane, j);
    QueueAfterHolds(s.queue, listing, s.jobs, s'.workers, repaired, j);
    OwnAfter(s, listing, world, force, controlPlane, j);
    JobAfter(s.jobs, s'.workers, repaired, world, j);
  }

  /** A pass takes no worker from a job and gives it none; those it has not ended are as they were. */
  lemma OwnAfter(s: State, listing: seq<JobId>, world: World, force: bool, controlPlane: bool, j: JobId)
    requires forall k :: k in listing ==> k in s.jobs
    ensures var workers := Reconciled(s, listing, world, force, controlPlane).workers;
      && Own(s.workers, j) == Own(workers, j) == Policies.WorkersOf(workers, j)
      && (!EndedNow(s.workers, workers, j) ==> forall w :: w in Own(s.workers, j) ==> workers[w] == s.workers[w])
  {
    WorkersAfter(s, listing, world, force, controlPlane);
  }

  /** The second loop requeues a job under way, closes it, or leaves it. */
  lemma JobAfter(jobs: Jobs, workers: Workers, repaired: set<JobId>, world: World, j: JobId)
    requires j in jobs && jobs[j].jobId == j
    ensures
      var own := Policies.WorkersOf(workers, j);
      var underWay := !TerminalJob(jobs[j].status);
      var closes := underWay && j !in repaired && own != {}
          && forall w :: w in own ==> TerminalWorker(workers[w].status);
      var after := JobsAfter(jobs, jobs.Keys, workers, repaired, world);
      && (Requeues(jobs[j], workers, repaired) <==> underWay && (j in repaired || own == {}))
      && j in after
      && after[j] == (if closes
           then jobs[j].(status := WorstStatus(set w | w in own :: ResultFor(workers[w], world))) else jobs[j])
      && (closes ==> TerminalJob(after[j].status))
  {
  }

  /**
   The status a job is closed with, by the result files of its workers: completed if every worker has one that says so,
   failed if one of them says failed or timed out or a worker without one was not canceled, and canceled otherwise.
   */
  lemma ClosingStatus(s: State, listing: seq<JobId>, world: World, force: bool, controlPlane: bool, j: JobId)
    requires StateValid(s) && Lists(listing, s.jobs.Keys) && j in s.jobs && !TerminalJob(s.jobs[j].status)
    requires TerminalJob(Reconciled(s, listing, world, force, controlPlane).jobs[j].status)
    ensures
      var status := Reconciled(s, listing, world, force, controlPlane).jobs[j].status;
      var own := Own(s.workers, j);
      own != {} && ClosedBy(status, s.workers, own, world)
  {
    var s' := Reconciled(s, listing, world, force, controlPlane);
    var own := Own(s.workers, j);
    var repaired := RepairedJobs(s.workers, s.workers.Keys, FatesOf(s.workers, world, force, controlPlane));
    EndedNowIffRepaired(s, listing, world, force, controlPlane, j);
    OwnAfter(s, listing, world, force, controlPlane, j);
    JobAfter(s.jobs, s'.workers, repaired, world, j);
    WorstCloses(s'.workers, own, world);
  }
}
