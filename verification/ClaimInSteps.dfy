/**
 The claim as one scheduler answers it alone (`Scheduling`) against the claim as its steps are interleaved with
 everybody else's (`RemoteClaims`): run alone, it is a run of those steps, and a serial one.
 */
module ClaimInSteps {
  import opened Wrappers
  import opened StateMachine
  import opened Models
  import opened Policies
  import opened DispatchView
  import opened RemoteClaims
  import Scheduling
  import QueueSpec

  /** The claim reads the next job of the listing: one that is gone is dropped and passed. */
  lemma ReadsJob(start: State, steps: seq<Step>, c: State, id: ClaimId, s: Stage, cfg: Config)
    returns (more: seq<Step>, c': State)
    requires Reached(start, steps, c, cfg) && SerialRun(start, steps, cfg) && id in c.claims
    requires c.claims[id].stage == s && s.Scanning? && s.next < |s.listing|
    ensures Reached(start, more, c', cfg) && SerialRun(start, more, cfg)
    ensures var j := s.listing[s.next].jobId;
      c' == if Gone(c.jobs, j) then At(Dropped(c, j), id, Scanning(s.listing, s.next + 1, s.view))
            else At(c, id, JobRead(s.listing, s.next, s.view, c.jobs[j]))
  {
    more, c' := OneStepOn(start, steps, c, ReadJob(id), cfg);
  }

  /** One that is full is dropped and passed, and one in conflict is passed. */
  lemma PassesJob(start: State, steps: seq<Step>, c: State, id: ClaimId, s: Stage, cfg: Config)
    returns (more: seq<Step>, c': State)
    requires Reached(start, steps, c, cfg) && SerialRun(start, steps, cfg) && id in c.claims
    requires c.claims[id].stage == s && s.JobRead? && CanDispatch(|s.view|, cfg.maxActiveWorkers)
    requires Full(s.job, c.workers)
             || HasWriteConflict(s.job.isolationMode, s.job.repoPath, s.view, cfg.maxWriteWorkersPerRepo)
    ensures Reached(start, more, c', cfg) && SerialRun(start, more, cfg)
    ensures c' == At(if Full(s.job, c.workers) then Dropped(c, s.job.jobId) else c, id,
                     Scanning(s.listing, s.next + 1, s.view))
  {
    more, c' := OneStepOn(start, steps, c, Decide(id), cfg);
  }

  /** A job passed over is gone, full, or in conflict, and only in the last case it may still take more workers. */
  lemma MayBeDropped(queue: seq<Job>, j: JobId, jobs: Jobs, workers: Workers, cfg: Config)
    requires Scheduling.PassedOver(j, jobs, workers, cfg.maxWriteWorkersPerRepo) && OwnIds(jobs)
    ensures Gone(jobs, j) || Full(jobs[j], workers)
            || HasWriteConflict(jobs[j].isolationMode, jobs[j].repoPath, ViewOf(workers), cfg.maxWriteWorkersPerRepo)
    ensures Gone(jobs, j) || Full(jobs[j], workers) ==>
      Scheduling.OnlyServedDropped(queue, QueueSpec.Remove(queue, j), jobs, workers)
    ensures Scheduling.OnlyServedDropped(queue, queue, jobs, workers)
  {
    forall k ensures QueueSpec.Holds(QueueSpec.Remove(queue, j), k) <==> QueueSpec.Holds(queue, k) && k != j {
      QueueSpec.RemoveHolds(queue, j, k);
    }
  }

  /** The claim looks at a job that may take no worker, and goes on to the next. */
  lemma SkipsOne(start: State, steps: seq<Step>, c: State, id: ClaimId, s: Stage, cfg: Config)
    returns (more: seq<Step>, c': State)
    requires Reached(start, steps, c, cfg) && SerialRun(start, steps, cfg) && id in c.claims
    requires c.claims[id].stage == s && s.Scanning? && s.next < |s.listing| && OwnIds(c.jobs)
    requires s.view == ViewOf(c.workers) && CanDispatch(|s.view|, cfg.maxActiveWorkers)
    requires Scheduling.PassedOver(s.listing[s.next].jobId, c.jobs, c.workers, cfg.maxWriteWorkersPerRepo)
    ensures Reached(start, more, c', cfg) && SerialRun(start, more, cfg)
    ensures c' == At(c, id, Scanning(s.listing, s.next + 1, s.view)).(queue := c'.queue)
    ensures Scheduling.OnlyServedDropped(c.queue, c'.queue, c.jobs, c.workers)
  {
    var j := s.listing[s.next].jobId;
    MayBeDropped(c.queue, j, c.jobs, c.workers, cfg);
    more, c' := ReadsJob(start, steps, c, id, s, cfg);
    if !Gone(c.jobs, j) {
      more, c' := PassesJob(start, more, c', id, JobRead(s.listing, s.next, s.view, c.jobs[j]), cfg);
    }
  }

  /** It comes to the first job that may take one. */
  lemma {:induction false} Skips(start: State, steps: seq<Step>, c: State, id: ClaimId, listing: seq<Job>,
      view: Workers, n: nat, end: nat, cfg: Config)
    returns (more: seq<Step>, c': State)
    requires Reached(start, steps, c, cfg) && SerialRun(start, steps, cfg) && id in c.claims && n <= end <= |listing|
    requires c.claims[id].stage == Scanning(listing, n, view) && OwnIds(c.jobs)
    requires view == ViewOf(c.workers) && CanDispatch(|view|, cfg.maxActiveWorkers)
    requires forall k :: n <= k < end ==>
      Scheduling.PassedOver(listing[k].jobId, c.jobs, c.workers, cfg.maxWriteWorkersPerRepo)
    ensures Reached(start, more, c', cfg) && SerialRun(start, more, cfg)
    ensures c' == At(c, id, Scanning(listing, end, view)).(queue := c'.queue)
    ensures Scheduling.OnlyServedDropped(c.queue, c'.queue, c.jobs, c.workers)
    decreases end - n
  {
    more, c' := steps, c;
    if n < end {
      more, c' := SkipsOne(start, steps, c, id, Scanning(listing, n, view), cfg);
      more, c' := Skips(start, more, c', id, listing, view, n + 1, end, cfg);
    }
  }

  /** The job goes back to the queue exactly if it may take more workers, and the claim ends. */
  lemma Returns(start: State, steps: seq<Step>, c: State, id: ClaimId, s: Stage, cfg: Config)
    returns (more: seq<Step>, c': State)
    requires Reached(start, steps, c, cfg) && SerialRun(start, steps, cfg) && id in c.claims
    requires c.claims[id].stage == s && s.HandedOut? && OwnIds(c.jobs)
    requires s.job.jobId in c.jobs && !TerminalJob(c.jobs[s.job.jobId].status)
    requires !QueueSpec.Holds(c.queue, s.job.jobId)
    ensures Reached(start, more, c', cfg) && SerialRun(start, more, cfg)
    ensures c' == c.(queue := c'.queue, claims := c.claims - {id})
    ensures forall k :: QueueSpec.Holds(c'.queue, k) <==>
              QueueSpec.Holds(c.queue, k)
              || (k == s.job.jobId && Scheduling.Waiting(c.jobs, c.workers, s.job.jobId))
  {
    more, c' := OneStepOn(start, steps, c, Requeue(id), cfg);
    forall k {
      QueueSpec.EnqueueHolds(c.queue, c.jobs[s.job.jobId], k);
    }
  }

  /** A claim begins and comes to the first job of the listing that may take a worker. */
  lemma Finds(c: State, id: ClaimId, owner: string, ttlMs: int, n: nat, cfg: Config)
    returns (steps: seq<Step>, c': State)
    requires c.claims == map[] && LeaseOpen(c, owner, cfg) && ttlMs > 0 && OwnIds(c.jobs)
    requires n <= |QueueSpec.Listed(c.queue)| && CanDispatch(|ViewOf(c.workers)|, cfg.maxActiveWorkers)
    requires forall k :: 0 <= k < n ==>
      Scheduling.PassedOver(QueueSpec.Listed(c.queue)[k].jobId, c.jobs, c.workers, cfg.maxWriteWorkersPerRepo)
    ensures Reached(c, steps, c', cfg) && SerialRun(c, steps, cfg)
    ensures c'.jobs == c.jobs && c'.workers == c.workers && c'.now == c.now && c'.claims.Keys == {id}
    ensures c'.claims[id].stage == Scanning(QueueSpec.Listed(c.queue), n, ViewOf(c.workers))
    ensures Scheduling.OnlyServedDropped(c.queue, c'.queue, c.jobs, c.workers)
  {
    steps, c' := Looks(c, [], c, id, owner, ttlMs, cfg);
    steps, c' := Skips(c, steps, c', id, QueueSpec.Listed(c.queue), ViewOf(c.workers), 0, n, cfg);
  }

  /** It takes that job, makes and hands out its worker, and ends. */
  lemma Claims(start: State, steps: seq<Step>, c: State, id: ClaimId, s: Stage, p: WorkerId, cfg: Config)
    returns (more: seq<Step>, c': State)
    requires Reached(start, steps, c, cfg) && SerialRun(start, steps, cfg) && c.claims.Keys == {id}
    requires c.claims[id].stage == s && s.Scanning? && s.next < |s.listing| && OwnIds(c.jobs)
    requires s.listing[s.next].jobId in c.jobs && p !in c.workers && p !in s.view
    requires Claimable(c.jobs[s.listing[s.next].jobId], s.view, c.workers, cfg)
    ensures Reached(start, more, c', cfg) && SerialRun(start, more, cfg)
    ensures c'.claims == map[] && c'.jobs == c.jobs
    ensures c'.workers == c.workers[p := Started(p, c.jobs[s.listing[s.next].jobId])]
    ensures var j := s.listing[s.next].jobId;
      forall k :: QueueSpec.Holds(c'.queue, k) <==>
        if k == j then Scheduling.Waiting(c'.jobs, c'.workers, j) else QueueSpec.Holds(c.queue, k)
  {
    var j := s.listing[s.next].jobId;
    forall k ensures QueueSpec.Holds(QueueSpec.Remove(c.queue, j), k) <==> QueueSpec.Holds(c.queue, k) && k != j {
      QueueSpec.RemoveHolds(c.queue, j, k);
    }
    more, c' := Chooses(start, steps, c, id, s, cfg);
    more, c' := Takes(start, more, c', id, Chosen(s.view, c.jobs[j]), p, cfg);
    more, c' := Returns(start, more, c', id, HandedOut(s.view, c.jobs[j], p), cfg);
  }

  /**
   A claim that nothing comes between is a run of the interleaved claims, in time and serial: from a store in which the
   claim's job is next in turn and there is room for a worker, to that store with the one worker made and starting, with
   that job in the queue exactly if it may take more, and without some jobs that may not.
   */
  lemma ClaimIsARun(c: State, id: ClaimId, owner: string, ttlMs: int, j: JobId, p: WorkerId, cfg: Config)
    returns (steps: seq<Step>)
    requires c.claims == map[] && LeaseOpen(c, owner, cfg) && ttlMs > 0 && OwnIds(c.jobs) && p !in c.workers
    requires CanDispatch(|SchedulableIn(c.workers)|, cfg.maxActiveWorkers)
    requires Scheduling.ClaimedInTurn(QueueSpec.Listed(c.queue), j, c.jobs, c.workers, cfg.maxWriteWorkersPerRepo)
    ensures EnabledRun(c, steps, cfg) && TimelyRun(c, steps, cfg) && SerialRun(c, steps, cfg)
    ensures
      var c' := Run(c, steps, cfg);
      && j in c.jobs && c'.jobs == c.jobs && c'.claims == map[]
      && c'.workers == c.workers[p := Worker(p, j, WorkerStatus.Starting, c.jobs[j].repoPath,
                                             c.jobs[j].isolationMode == Worktree, false)]
      && (QueueSpec.Holds(c'.queue, j) <==> Scheduling.Waiting(c.jobs, c'.workers, j))
      && forall k :: k != j ==>
           && (QueueSpec.Holds(c'.queue, k) ==> QueueSpec.Holds(c.queue, k))
           && (QueueSpec.Holds(c.queue, k) && Scheduling.Waiting(c.jobs, c'.workers, k) ==>
                 QueueSpec.Holds(c'.queue, k))
  {
    var listing, view := QueueSpec.Listed(c.queue), ViewOf(c.workers);
    var n :| 0 <= n < |listing| && listing[n].jobId == j && Scheduling.Waiting(c.jobs, c.workers, j)
      && !Scheduling.PassedOver(j, c.jobs, c.workers, cfg.maxWriteWorkersPerRepo)
      && forall m :: 0 <= m < n ==>
           Scheduling.PassedOver(listing[m].jobId, c.jobs, c.workers, cfg.maxWriteWorkersPerRepo);
    InitialView(c.workers, cfg.maxActiveWorkers, cfg.maxWriteWorkersPerRepo);
    var now;
    steps, now := Finds(c, id, owner, ttlMs, n, cfg);
    ghost var found := now.queue;
    steps, now := Claims(c, steps, now, id, Scanning(listing, n, view), p, cfg);
    forall k | k != j
      ensures Scheduling.Waiting(c.jobs, now.workers, k) <==> Scheduling.Waiting(c.jobs, c.workers, k)
    {
      assert SchedulableOf(now.workers, k) == SchedulableOf(c.workers, k);
    }
  }
}
