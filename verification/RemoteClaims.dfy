/**
 Claims by remote executors as they are interleaved (`claimRemoteJob` of src/scheduler/scheduler.ts, called by the
 claim route of src/api/routes/internal.ts): every read or write of the store, the queue or the coordinator is one
 step. Nothing in the code keeps two claims of one scheduler apart, for the second acquires the lease as a renewal.
 */
module RemoteClaims {
  import opened Wrappers
  import opened StateMachine
  import opened Models
  import opened Policies
  import opened DispatchView
  import C = Coordination
  import Cluster
  import QueueSpec

  type ClaimId = nat
  type Jobs = map<JobId, Job>

  /** How far a claim has got, with what it holds from its reads. */
  datatype Stage =
    | Leased
    | ListingRead(listing: seq<Job>)
    | Scanning(listing: seq<Job>, next: nat, view: Workers)
    | JobRead(listing: seq<Job>, next: nat, view: Workers, job: Job)
    | Chosen(view: Workers, job: Job)
    | WorkerMade(view: Workers, job: Job, workerId: WorkerId)
    | WorkerRead(view: Workers, job: Job, workerId: WorkerId, record: Worker)
    | HandedOut(view: Workers, job: Job, workerId: WorkerId)

  datatype Claim = Claim(owner: string, expiresAt: int, stage: Stage)

  datatype State = State(now: int, plane: C.State, jobs: Jobs, workers: Workers, queue: seq<Job>,
      claims: map<ClaimId, Claim>)

  datatype Config = Config(controlPlane: bool, leaseKey: string, maxActiveWorkers: nat, maxWriteWorkersPerRepo: nat,
      bump: bool)

  /** The owner a scheduler without a control plane gives itself. */
  const LOCAL := "local"

  datatype Step =
    | BeginClaim(id: ClaimId, owner: string, ttlMs: int)
    | ReadListing(id: ClaimId)
    | ReadView(id: ClaimId)
    | ReadJob(id: ClaimId)
    | Decide(id: ClaimId)
    | GiveUp(id: ClaimId)
    | CreateWorker(id: ClaimId, workerId: WorkerId)
    | ReadWorker(id: ClaimId)
    | WriteClaim(id: ClaimId)
    | Requeue(id: ClaimId)
    | Tick(dt: nat)
    | Plane(op: C.Op)
    | Queue(queueOp: QueueSpec.Op)
    | WriteJob(job: Job)
    | Settle(workerId: WorkerId, status: WorkerStatus)

  predicate SameLimits(a: Job, b: Job) {
    a.jobId == b.jobId && a.maxWorkers == b.maxWorkers && a.repoPath == b.repoPath && a.isolationMode == b.isolationMode
  }

  /**
   Which steps the code can take. A claim can be given up at any point, for any call may raise. Jobs keep what was asked
   for; a new job has no workers. Workers come to other statuses by legal changes: by cancellation, by results, and by
   heartbeats, which come from the executor a worker was handed out to, so that none makes a created worker start.
   */
  ghost predicate Enabled(c: State, step: Step, cfg: Config) {
    match step
    case BeginClaim(id, owner, _) => id !in c.claims && (cfg.controlPlane || owner == LOCAL)
    case ReadListing(id) => id in c.claims && c.claims[id].stage.Leased?
    case ReadView(id) => id in c.claims && c.claims[id].stage.ListingRead?
    case ReadJob(id) =>
      && id in c.claims && c.claims[id].stage.Scanning? && c.claims[id].stage.next < |c.claims[id].stage.listing|
    case Decide(id) => id in c.claims && c.claims[id].stage.JobRead?
    case GiveUp(id) => id in c.claims
    case CreateWorker(id, w) =>
      id in c.claims && c.claims[id].stage.Chosen? && w !in c.workers && w !in c.claims[id].stage.view
    case ReadWorker(id) => id in c.claims && c.claims[id].stage.WorkerMade? && c.claims[id].stage.workerId in c.workers
    case WriteClaim(id) => id in c.claims && c.claims[id].stage.WorkerRead?
    case Requeue(id) => id in c.claims && c.claims[id].stage.HandedOut?
    case Tick(_) => true
    case Plane(_) => true
    case Queue(_) => true
    case WriteJob(job) =>
      if job.jobId in c.jobs then SameLimits(job, c.jobs[job.jobId])
      else job.maxWorkers >= 0 && WorkersOf(c.workers, job.jobId) == {}
    case Settle(w, status) =>
      w in c.workers && ValidWorker(c.workers[w].status, status) && (c.workers[w].status.Created? ==> status.Canceled?)
  }

  function At(c: State, id: ClaimId, stage: Stage): State
    requires id in c.claims
  {
    c.(claims := c.claims[id := c.claims[id].(stage := stage)])
  }

  function Ended(c: State, id: ClaimId): State {
    c.(claims := c.claims - {id})
  }

  function Dropped(c: State, jobId: JobId): State {
    c.(queue := QueueSpec.Remove(c.queue, jobId))
  }

  function Latest(c: State, job: Job): Job {
    if job.jobId in c.jobs then c.jobs[job.jobId] else job
  }

  /** `createWorker`'s record. */
  function NewWorker(w: WorkerId, job: Job): Worker {
    Worker(w, job.jobId, WorkerStatus.Created, job.repoPath, job.isolationMode == Worktree, false)
  }

  /** `acquireLease`, or the record a scheduler without a control plane makes up. */
  function Begun(c: State, id: ClaimId, owner: string, ttlMs: int, cfg: Config): State {
    if !cfg.controlPlane then c.(claims := c.claims[id := Claim(owner, c.now + ttlMs, Leased)])
    else
      var (plane, reply) := C.Step(c.plane, c.now, C.AcquireLease(cfg.leaseKey, owner, ttlMs), cfg.bump);
      if reply.LeaseReply? && reply.lease.Some?
      then c.(plane := plane, claims := c.claims[id := Claim(owner, reply.lease.value.expiresAt, Leased)])
      else c.(plane := plane)
  }

  predicate Gone(jobs: Jobs, jobId: JobId) {
    jobId !in jobs || TerminalJob(jobs[jobId].status)
  }

  /** A job that is gone or closed is dropped from the queue, any other is judged next. */
  function AfterJobRead(s: Stage, jobs: Jobs): Stage
    requires s.Scanning? && s.next < |s.listing|
  {
    var jobId := s.listing[s.next].jobId;
    if Gone(jobs, jobId) then Scanning(s.listing, s.next + 1, s.view)
    else JobRead(s.listing, s.next, s.view, jobs[jobId])
  }

  predicate Full(job: Job, workers: Workers) {
    |SchedulableOf(workers, job.jobId)| >= job.maxWorkers
  }

  /**
   A full job is passed over; without capacity the claim ends; a job in conflict is passed over; else it is chosen.
   */
  function Verdict(s: Stage, workers: Workers, cfg: Config): Option<Stage>
    requires s.JobRead?
  {
    if Full(s.job, workers) then Some(Scanning(s.listing, s.next + 1, s.view))
    else if !CanDispatch(|s.view|, cfg.maxActiveWorkers) then None
    else if HasWriteConflict(s.job.isolationMode, s.job.repoPath, s.view, cfg.maxWriteWorkersPerRepo)
    then Some(Scanning(s.listing, s.next + 1, s.view))
    else Some(Chosen(s.view, s.job))
  }

  /** A full job and a chosen one leave the queue. */
  function Decided(c: State, id: ClaimId, s: Stage, cfg: Config): State
    requires id in c.claims && s.JobRead?
  {
    match Verdict(s, c.workers, cfg)
    case None => Ended(c, id)
    case Some(stage) =>
      At(if Full(s.job, c.workers) || stage.Chosen? then Dropped(c, s.job.jobId) else c, id, stage)
  }

  function Requeued(c: State, job: Job): State {
    if |SchedulableOf(c.workers, job.jobId)| < Latest(c, job).maxWorkers
    then c.(queue := QueueSpec.Enqueue(c.queue, Latest(c, job))) else c
  }

  ghost function Next(c: State, step: Step, cfg: Config): State
    requires Enabled(c, step, cfg)
  {
    match step
    case BeginClaim(id, owner, ttlMs) => Begun(c, id, owner, ttlMs, cfg)
    case ReadListing(id) => At(c, id, ListingRead(QueueSpec.Listed(c.queue)))
    case ReadView(id) => At(c, id, Scanning(c.claims[id].stage.listing, 0, ViewOf(c.workers)))
    case ReadJob(id) =>
      var s := c.claims[id].stage;
      At(if Gone(c.jobs, s.listing[s.next].jobId) then Dropped(c, s.listing[s.next].jobId) else c, id,
         AfterJobRead(s, c.jobs))
    case Decide(id) => Decided(c, id, c.claims[id].stage, cfg)
    case GiveUp(id) => Ended(c, id)
    case CreateWorker(id, w) =>
      var s := c.claims[id].stage;
      At(c.(workers := c.workers[w := NewWorker(w, Latest(c, s.job))]), id, WorkerMade(s.view, s.job, w))
    case ReadWorker(id) =>
      var s := c.claims[id].stage;
      At(c, id, WorkerRead(s.view, s.job, s.workerId, c.workers[s.workerId]))
    case WriteClaim(id) =>
      var s := c.claims[id].stage;
      At(c.(workers := c.workers[s.workerId := ClaimedRecord(s.record)]), id, HandedOut(s.view, s.job, s.workerId))
    case Requeue(id) => Ended(Requeued(c, c.claims[id].stage.job), id)
    case Tick(dt) => c.(now := c.now + dt)
    case Plane(op) => c.(plane := C.Step(c.plane, c.now, op, cfg.bump).0)
    case Queue(op) => c.(queue := QueueSpec.Step(c.queue, op).0)
    case WriteJob(job) => c.(jobs := c.jobs[job.jobId := job])
    case Settle(w, status) => c.(workers := Cluster.WithStatus(c.workers, w, status))
  }

  /** `claimRemoteWorker` writes back what it read, starting if it was created. */
  function ClaimedRecord(record: Worker): Worker {
    if record.status.Created? then record.(status := WorkerStatus.Starting) else record
  }

  /** What callers can see to: a scheduler answers one claim at a time. */
  ghost predicate Serial(c: State, step: Step) {
    step.BeginClaim? ==> forall id :: id in c.claims ==> c.claims[id].owner != step.owner
  }

  ghost function Owners(c: State): set<string> {
    set id | id in c.claims :: c.claims[id].owner
  }

  /** As for passes: a claim ends before the lease it was granted, and nobody disturbs a scheduler in a claim. */
  ghost predicate Timely(c: State, step: Step, cfg: Config) {
    cfg.controlPlane ==>
      match step
      case Tick(dt) => forall id :: id in c.claims ==> c.now + dt < c.claims[id].expiresAt
      case BeginClaim(_, _, ttlMs) => ttlMs > 0
      case Plane(op) => !Cluster.Disturbs(op, cfg.leaseKey, Owners(c))
      case _ => true
  }

  // ---- One claim at a time ----

  ghost predicate OwnsLease(c: State, claim: Claim, cfg: Config) {
    var lease := C.Lookup(c.plane.leases, cfg.leaseKey);
    && lease.Some? && lease.value.ownerId == claim.owner && lease.value.expiresAt == claim.expiresAt
    && !C.Expired(lease.value.expiresAt, c.now)
  }

  ghost predicate OneClaim(claims: map<ClaimId, Claim>) {
    forall id, k :: id in claims && k in claims ==> id == k
  }

  ghost predicate Leases(c: State, cfg: Config) {
    && OneClaim(c.claims)
    && forall id :: id in c.claims ==>
         if cfg.controlPlane then OwnsLease(c, c.claims[id], cfg) else c.claims[id].owner == LOCAL
  }

  /** The claims that are left are the same holders of the same lease. */
  ghost predicate SameHolders(c: State, c': State) {
    && c'.plane == c.plane
    && forall id :: id in c'.claims ==>
         && id in c.claims
         && c'.claims[id].owner == c.claims[id].owner && c'.claims[id].expiresAt == c.claims[id].expiresAt
  }

  lemma SameHoldersKeepLeases(c: State, c': State, cfg: Config)
    requires Leases(c, cfg) && SameHolders(c, c')
    requires c'.now == c.now || !cfg.controlPlane || forall id :: id in c.claims ==> c'.now < c.claims[id].expiresAt
    ensures Leases(c', cfg)
  {
    forall id | id in c'.claims && cfg.controlPlane ensures OwnsLease(c', c'.claims[id], cfg) {
      assert OwnsLease(c, c.claims[id], cfg);
    }
  }

  lemma PlaneKeepsLeases(c: State, op: C.Op, cfg: Config)
    requires Leases(c, cfg) && Timely(c, Plane(op), cfg)
    ensures Leases(c.(plane := C.Step(c.plane, c.now, op, cfg.bump).0), cfg)
  {
    C.StepLease(c.plane, c.now, op, cfg.bump, cfg.leaseKey);
    forall id | id in c.claims && cfg.controlPlane
      ensures OwnsLease(c.(plane := C.Step(c.plane, c.now, op, cfg.bump).0), c.claims[id], cfg)
    {
      assert OwnsLease(c, c.claims[id], cfg) && c.claims[id].owner in Owners(c);
    }
  }

  /** The lease keeps claims of other schedulers out, and the scheduler its own. */
  lemma BeginKeepsLeases(c: State, id: ClaimId, owner: string, ttlMs: int, cfg: Config)
    requires Leases(c, cfg) && id !in c.claims && (cfg.controlPlane || owner == LOCAL)
    requires cfg.controlPlane ==> ttlMs > 0
    requires forall k :: k in c.claims ==> c.claims[k].owner != owner
    ensures Leases(Begun(c, id, owner, ttlMs, cfg), cfg)
    ensures Begun(c, id, owner, ttlMs, cfg).claims == c.claims || c.claims == map[]
  {
    C.StepLease(c.plane, c.now, C.AcquireLease(cfg.leaseKey, owner, ttlMs), cfg.bump, cfg.leaseKey);
    if k :| k in c.claims {
      assert cfg.controlPlane ==> OwnsLease(c, c.claims[k], cfg);
    }
  }

  lemma HoldersStay(c: State, step: Step, cfg: Config)
    requires Enabled(c, step, cfg) && !step.Plane? && !step.BeginClaim? && !step.Tick?
    ensures SameHolders(c, Next(c, step, cfg)) && Next(c, step, cfg).now == c.now
  {
  }

  lemma StepKeepsLeases(c: State, step: Step, cfg: Config)
    requires Leases(c, cfg) && Enabled(c, step, cfg) && Timely(c, step, cfg) && Serial(c, step)
    ensures Leases(Next(c, step, cfg), cfg)
  {
    match step {
      case Plane(op) => PlaneKeepsLeases(c, op, cfg);
      case BeginClaim(id, owner, ttlMs) => BeginKeepsLeases(c, id, owner, ttlMs, cfg);
      case Tick(dt) => SameHoldersKeepLeases(c, c.(now := c.now + dt), cfg);
      case _ =>
        HoldersStay(c, step, cfg);
        SameHoldersKeepLeases(c, Next(c, step, cfg), cfg);
    }
  }

  // ---- The caps ----

  ghost predicate Caps(jobs: Jobs, workers: Workers, cfg: Config) {
    && |SchedulableIn(workers)| <= cfg.maxActiveWorkers
    && (forall repo :: |WritersIn(workers, repo)| <= cfg.maxWriteWorkersPerRepo)
    && forall j :: j in jobs ==> |SchedulableOf(workers, j)| <= jobs[j].maxWorkers
  }

  predicate HasView(s: Stage) {
    !s.Leased? && !s.ListingRead?
  }

  /** The worker a claim has made. */
  function Made(s: Stage): set<WorkerId> {
    if s.WorkerMade? || s.WorkerRead? || s.HandedOut? then {s.workerId} else {}
  }

  predicate Busy(s: WorkerStatus) {
    s.Starting? || s.Active?
  }

  /** The same worker, which does not count for more than it did. */
  predicate CountsAs(before: Worker, after: Worker) {
    && after == before.(status := after.status)
    && (Schedulable(after.status) ==> Schedulable(before.status)) && (Busy(after.status) ==> Busy(before.status))
  }

  /** Whoever is schedulable in the store is in the view as such, but for the workers made. */
  ghost predicate SeenBut(view: Workers, made: set<WorkerId>, workers: Workers) {
    forall w :: w in workers && Schedulable(workers[w].status) && w !in made ==>
      w in view && CountsAs(view[w], workers[w])
  }

  ghost predicate Seen(s: Stage, workers: Workers) {
    HasView(s) ==> SeenBut(s.view, Made(s), workers)
  }

  /** The claim has checked everything, and goes on from there. */
  predicate Committed(s: Stage) {
    s.Chosen? || s.WorkerMade? || s.WorkerRead? || s.HandedOut?
  }

  /** There is room for one more worker for this job, by the view. */
  ghost predicate HasRoom(view: Workers, job: Job, cfg: Config) {
    && |view| < cfg.maxActiveWorkers
    && (job.isolationMode == Worktree ==> |WritersIn(view, job.repoPath)| < cfg.maxWriteWorkersPerRepo)
  }

  /** There is room for one more worker within the job's own limit, but for those made. */
  ghost predicate HasPlace(job: Job, workers: Workers, made: set<WorkerId>) {
    && |SchedulableOf(workers, job.jobId) - made| < job.maxWorkers
    && forall w :: w in made ==> w in workers && IsFor(workers[w], job)
  }

  predicate IsStored(job: Job, jobs: Jobs) {
    job.jobId in jobs && SameLimits(job, jobs[job.jobId])
  }

  /** What a claim has checked of the job it has read or chosen. */
  ghost predicate Checked(s: Stage, jobs: Jobs, workers: Workers, cfg: Config) {
    && (s.JobRead? || Committed(s) ==> IsStored(s.job, jobs))
    && (Committed(s) ==> HasRoom(s.view, s.job, cfg) && HasPlace(s.job, workers, Made(s)))
    && (s.WorkerRead? ==> IsFor(s.record, s.job))
  }

  predicate IsFor(w: Worker, job: Job) {
    w.jobId == job.jobId && w.repoPath == job.repoPath && w.writeCapable == (job.isolationMode == Worktree)
  }

  ghost predicate Sound(s: Stage, jobs: Jobs, workers: Workers, cfg: Config) {
    Seen(s, workers) && Checked(s, jobs, workers, cfg)
  }

  ghost predicate AllSound(claims: map<ClaimId, Claim>, jobs: Jobs, workers: Workers, cfg: Config) {
    forall id :: id in claims ==> Sound(claims[id].stage, jobs, workers, cfg)
  }

  ghost predicate OwnIds(jobs: Jobs) {
    forall j :: j in jobs ==> jobs[j].jobId == j
  }

  ghost predicate Inv(c: State, cfg: Config) {
    && Leases(c, cfg) && Caps(c.jobs, c.workers, cfg) && OwnIds(c.jobs)
    && AllSound(c.claims, c.jobs, c.workers, cfg)
  }

  /** No worker counts for more than before. */
  ghost predicate Shrunk(before: Workers, after: Workers) {
    after.Keys == before.Keys && forall w :: w in before ==> CountsAs(before[w], after[w])
  }

  lemma SeenWriters(view: Workers, made: set<WorkerId>, workers: Workers, repo: string)
    requires SeenBut(view, made, workers)
    ensures SchedulableIn(workers) <= view.Keys + made && WritersIn(workers, repo) <= WritersIn(view, repo) + made
  {
  }

  lemma ShrinkingKeepsCaps(jobs: Jobs, before: Workers, after: Workers, cfg: Config)
    requires Caps(jobs, before, cfg) && Shrunk(before, after)
    ensures Caps(jobs, after, cfg)
  {
    SubsetSize(SchedulableIn(after), SchedulableIn(before));
    forall repo ensures |WritersIn(after, repo)| <= cfg.maxWriteWorkersPerRepo {
      SubsetSize(WritersIn(after, repo), WritersIn(before, repo));
    }
    forall j | j in jobs ensures |SchedulableOf(after, j)| <= jobs[j].maxWorkers {
      SubsetSize(SchedulableOf(after, j), SchedulableOf(before, j));
    }
  }

  lemma ShrinkingKeepsChecks(s: Stage, jobs: Jobs, before: Workers, after: Workers, cfg: Config)
    requires Sound(s, jobs, before, cfg) && Shrunk(before, after)
    ensures Sound(s, jobs, after, cfg)
  {
    if Committed(s) {
      SubsetSize(SchedulableOf(after, s.job.jobId) - Made(s), SchedulableOf(before, s.job.jobId) - Made(s));
    }
  }

  lemma SettlingShrinks(workers: Workers, w: WorkerId, status: WorkerStatus)
    requires w in workers && ValidWorker(workers[w].status, status)
    requires workers[w].status.Created? ==> status.Canceled?
    ensures Shrunk(workers, Cluster.WithStatus(workers, w, status))
  {
  }

  lemma PuttingKeepsSchedulable(view: Workers, made: set<WorkerId>, workers: Workers, p: WorkerId, record: Worker)
    requires SeenBut(view, made, workers) && made <= {p}
    ensures |SchedulableIn(workers[p := record])| <= |view| + 1
  {
    SeenWriters(view, made, workers, "");
    SubsetSize(SchedulableIn(workers[p := record]), view.Keys + {p});
    assert |view.Keys + {p}| <= |view.Keys| + 1;
  }

  lemma PuttingKeepsWriters(view: Workers, made: set<WorkerId>, workers: Workers, p: WorkerId, record: Worker,
      repo: string)
    requires SeenBut(view, made, workers) && made <= {p}
    ensures var writers := |WritersIn(workers[p := record], repo)|;
      if Writing(record, repo) then writers <= |WritersIn(view, repo)| + 1 else writers <= |WritersIn(workers, repo)|
  {
    if Writing(record, repo) {
      SeenWriters(view, made, workers, repo);
      SubsetSize(WritersIn(workers[p := record], repo), WritersIn(view, repo) + {p});
      assert |WritersIn(view, repo) + {p}| <= |WritersIn(view, repo)| + 1;
    } else {
      SubsetSize(WritersIn(workers[p := record], repo), WritersIn(workers, repo));
    }
  }

  lemma PuttingKeepsJobLimit(job: Job, made: set<WorkerId>, workers: Workers, p: WorkerId, record: Worker, j: JobId)
    requires HasPlace(job, workers, made) && made <= {p} && (p !in workers || made == {p}) && IsFor(record, job)
    ensures |SchedulableOf(workers[p := record], j)| <=
            if j == job.jobId then job.maxWorkers else |SchedulableOf(workers, j)|
  {
    if j == job.jobId {
      var others := SchedulableOf(workers, j) - made;
      SubsetSize(SchedulableOf(workers[p := record], j), others + {p});
      assert |others + {p}| <= |others| + 1;
    } else {
      SubsetSize(SchedulableOf(workers[p := record], j), SchedulableOf(workers, j));
    }
  }

  /** The worker a claim makes or starts: what the claim checked against its view holds of the store. */
  lemma PuttingKeepsCaps(view: Workers, job: Job, made: set<WorkerId>, jobs: Jobs, workers: Workers, p: WorkerId,
      record: Worker, cfg: Config)
    requires Caps(jobs, workers, cfg) && SeenBut(view, made, workers) && OwnIds(jobs) && IsStored(job, jobs)
    requires HasRoom(view, job, cfg) && HasPlace(job, workers, made) && IsFor(record, job)
    requires made <= {p} && (p !in workers || made == {p})
    ensures Caps(jobs, workers[p := record], cfg)
  {
    var workers' := workers[p := record];
    PuttingKeepsSchedulable(view, made, workers, p, record);
    forall repo ensures |WritersIn(workers', repo)| <= cfg.maxWriteWorkersPerRepo {
      PuttingKeepsWriters(view, made, workers, p, record, repo);
    }
    forall j | j in jobs ensures |SchedulableOf(workers', j)| <= jobs[j].maxWorkers {
      PuttingKeepsJobLimit(job, made, workers, p, record, j);
    }
  }

  lemma FreshView(listing: seq<Job>, jobs: Jobs, workers: Workers, cfg: Config)
    ensures Sound(Scanning(listing, 0, ViewOf(workers)), jobs, workers, cfg)
  {
  }

  lemma ChosenOn(s: Stage, jobs: Jobs, workers: Workers, cfg: Config)
    requires Sound(s, jobs, workers, cfg) && s.JobRead? && !Full(s.job, workers)
    requires HasRoom(s.view, s.job, cfg)
    ensures Sound(Chosen(s.view, s.job), jobs, workers, cfg)
  {
    assert SchedulableOf(workers, s.job.jobId) - {} == SchedulableOf(workers, s.job.jobId);
    assert HasPlace(s.job, workers, {});
  }

  lemma PassedOn(s: Stage, jobs: Jobs, workers: Workers, cfg: Config)
    requires Sound(s, jobs, workers, cfg) && s.JobRead?
    ensures Verdict(s, workers, cfg).Some? ==> Sound(Verdict(s, workers, cfg).value, jobs, workers, cfg)
  {
    if Verdict(s, workers, cfg) == Some(Chosen(s.view, s.job)) {
      ChosenOn(s, jobs, workers, cfg);
    }
  }

  /** The worker a claim makes or writes is the only one it has not seen. */
  lemma PutIsSeen(view: Workers, made: set<WorkerId>, workers: Workers, p: WorkerId, record: Worker)
    requires SeenBut(view, made, workers) && made <= {p}
    ensures SeenBut(view, {p}, workers[p := record])
  {
  }

  lemma PutHasPlace(job: Job, made: set<WorkerId>, workers: Workers, p: WorkerId, record: Worker)
    requires HasPlace(job, workers, made) && made <= {p} && (p !in workers || made == {p}) && IsFor(record, job)
    ensures HasPlace(job, workers[p := record], {p})
  {
    assert SchedulableOf(workers[p := record], job.jobId) - {p} == SchedulableOf(workers, job.jobId) - made;
  }

  /** A claim that has checked everything, in parts. */
  lemma InParts(s: Stage, jobs: Jobs, workers: Workers, cfg: Config)
    requires Committed(s)
    ensures Sound(s, jobs, workers, cfg) <==>
      && SeenBut(s.view, Made(s), workers) && IsStored(s.job, jobs) && HasRoom(s.view, s.job, cfg)
      && HasPlace(s.job, workers, Made(s)) && (s.WorkerRead? ==> IsFor(s.record, s.job))
  {
  }

  /** The claim goes from one such stage to the next by putting a worker. */
  lemma PutOn(s: Stage, s': Stage, jobs: Jobs, workers: Workers, p: WorkerId, record: Worker, cfg: Config)
    requires Sound(s, jobs, workers, cfg) && Committed(s) && Committed(s') && s'.view == s.view && s'.job == s.job
    requires Made(s) <= {p} && Made(s') == {p} && (p !in workers || Made(s) == {p}) && IsFor(record, s.job)
    requires !s'.WorkerRead?
    ensures Sound(s', jobs, workers[p := record], cfg)
  {
    InParts(s, jobs, workers, cfg);
    PutIsSeen(s.view, Made(s), workers, p, record);
    PutHasPlace(s.job, Made(s), workers, p, record);
    InParts(s', jobs, workers[p := record], cfg);
  }

  lemma CreatedOn(s: Stage, jobs: Jobs, workers: Workers, w: WorkerId, record: Worker, cfg: Config)
    requires Sound(s, jobs, workers, cfg) && s.Chosen? && w !in workers && IsFor(record, s.job)
    ensures Sound(WorkerMade(s.view, s.job, w), jobs, workers[w := record], cfg)
  {
    PutOn(s, WorkerMade(s.view, s.job, w), jobs, workers, w, record, cfg);
  }

  lemma WrittenOn(s: Stage, jobs: Jobs, workers: Workers, record: Worker, cfg: Config)
    requires Sound(s, jobs, workers, cfg) && s.WorkerRead? && IsFor(record, s.job)
    ensures Sound(HandedOut(s.view, s.job, s.workerId), jobs, workers[s.workerId := record], cfg)
  {
    PutOn(s, HandedOut(s.view, s.job, s.workerId), jobs, workers, s.workerId, record, cfg);
  }

  lemma WritingKeepsChecks(s: Stage, jobs: Jobs, workers: Workers, job: Job, cfg: Config)
    requires Sound(s, jobs, workers, cfg) && (job.jobId in jobs ==> SameLimits(job, jobs[job.jobId]))
    ensures Sound(s, jobs[job.jobId := job], workers, cfg)
  {
  }

  lemma WritingKeepsCaps(jobs: Jobs, workers: Workers, job: Job, cfg: Config)
    requires Caps(jobs, workers, cfg)
    requires if job.jobId in jobs then SameLimits(job, jobs[job.jobId])
             else job.maxWorkers >= 0 && WorkersOf(workers, job.jobId) == {}
    ensures Caps(jobs[job.jobId := job], workers, cfg)
  {
    if job.jobId !in jobs {
      SubsetSize(SchedulableOf(workers, job.jobId), WorkersOf(workers, job.jobId));
    }
  }

  /** The one claim has gone on to this stage. */
  lemma GoesOn(c: State, c': State, id: ClaimId, stage: Stage, cfg: Config)
    requires OneClaim(c.claims) && id in c.claims && c'.claims == c.claims[id := c.claims[id].(stage := stage)]
    requires Sound(stage, c'.jobs, c'.workers, cfg)
    ensures AllSound(c'.claims, c'.jobs, c'.workers, cfg)
  {
  }

  /** The reads of a claim, and its decision, change neither jobs nor workers. */
  lemma ReadKeepsInv(c: State, step: Step, cfg: Config)
    requires OneClaim(c.claims) && AllSound(c.claims, c.jobs, c.workers, cfg)
    requires Enabled(c, step, cfg) && (step.ReadListing? || step.ReadView? || step.ReadWorker?)
    ensures var c' := Next(c, step, cfg);
      c'.jobs == c.jobs && c'.workers == c.workers && AllSound(c'.claims, c'.jobs, c'.workers, cfg)
  {
    var s := c.claims[step.id].stage;
    assert Sound(s, c.jobs, c.workers, cfg);
    if step.ReadView? {
      FreshView(s.listing, c.jobs, c.workers, cfg);
    }
    GoesOn(c, Next(c, step, cfg), step.id, Next(c, step, cfg).claims[step.id].stage, cfg);
  }

  lemma JobReadOn(s: Stage, jobs: Jobs, workers: Workers, cfg: Config)
    requires Sound(s, jobs, workers, cfg) && s.Scanning? && s.next < |s.listing| && OwnIds(jobs)
    ensures Sound(AfterJobRead(s, jobs), jobs, workers, cfg)
  {
  }

  lemma JobReadKeepsInv(c: State, id: ClaimId, cfg: Config)
    requires OneClaim(c.claims) && AllSound(c.claims, c.jobs, c.workers, cfg) && OwnIds(c.jobs)
    requires Enabled(c, ReadJob(id), cfg)
    ensures var c' := Next(c, ReadJob(id), cfg);
      c'.jobs == c.jobs && c'.workers == c.workers && AllSound(c'.claims, c'.jobs, c'.workers, cfg)
  {
    var s := c.claims[id].stage;
    assert Sound(s, c.jobs, c.workers, cfg);
    JobReadOn(s, c.jobs, c.workers, cfg);
    GoesOn(c, Next(c, ReadJob(id), cfg), id, AfterJobRead(s, c.jobs), cfg);
  }

  lemma DecisionKeepsInv(c: State, id: ClaimId, s: Stage, cfg: Config)
    requires OneClaim(c.claims) && AllSound(c.claims, c.jobs, c.workers, cfg)
    requires id in c.claims && c.claims[id].stage == s && s.JobRead?
    ensures var c' := Decided(c, id, s, cfg);
      c'.jobs == c.jobs && c'.workers == c.workers && AllSound(c'.claims, c'.jobs, c'.workers, cfg)
  {
    assert Sound(s, c.jobs, c.workers, cfg);
    PassedOn(s, c.jobs, c.workers, cfg);
    var verdict := Verdict(s, c.workers, cfg);
    if verdict.Some? {
      GoesOn(c, Decided(c, id, s, cfg), id, verdict.value, cfg);
    }
  }

  lemma CreateKeepsInv(c: State, id: ClaimId, w: WorkerId, cfg: Config)
    requires Inv(c, cfg) && Enabled(c, CreateWorker(id, w), cfg)
    ensures var c' := Next(c, CreateWorker(id, w), cfg);
      Caps(c'.jobs, c'.workers, cfg) && c'.jobs == c.jobs && AllSound(c'.claims, c'.jobs, c'.workers, cfg)
  {
    var s := c.claims[id].stage;
    assert Sound(s, c.jobs, c.workers, cfg);
    var record := NewWorker(w, Latest(c, s.job));
    PuttingKeepsCaps(s.view, s.job, {}, c.jobs, c.workers, w, record, cfg);
    CreatedOn(s, c.jobs, c.workers, w, record, cfg);
    GoesOn(c, Next(c, CreateWorker(id, w), cfg), id, WorkerMade(s.view, s.job, w), cfg);
  }

  lemma WriteKeepsInv(c: State, id: ClaimId, cfg: Config)
    requires Inv(c, cfg) && Enabled(c, WriteClaim(id), cfg)
    ensures var c' := Next(c, WriteClaim(id), cfg);
      Caps(c'.jobs, c'.workers, cfg) && c'.jobs == c.jobs && AllSound(c'.claims, c'.jobs, c'.workers, cfg)
  {
    var s := c.claims[id].stage;
    assert Sound(s, c.jobs, c.workers, cfg);
    var record := ClaimedRecord(s.record);
    PuttingKeepsCaps(s.view, s.job, {s.workerId}, c.jobs, c.workers, s.workerId, record, cfg);
    WrittenOn(s, c.jobs, c.workers, record, cfg);
    GoesOn(c, Next(c, WriteClaim(id), cfg), id, HandedOut(s.view, s.job, s.workerId), cfg);
  }

  lemma SettleKeepsInv(c: State, w: WorkerId, status: WorkerStatus, cfg: Config)
    requires Inv(c, cfg) && Enabled(c, Settle(w, status), cfg)
    ensures var workers' := Cluster.WithStatus(c.workers, w, status);
      Caps(c.jobs, workers', cfg) && AllSound(c.claims, c.jobs, workers', cfg)
  {
    var workers' := Cluster.WithStatus(c.workers, w, status);
    SettlingShrinks(c.workers, w, status);
    ShrinkingKeepsCaps(c.jobs, c.workers, workers', cfg);
    forall id | id in c.claims ensures Sound(c.claims[id].stage, c.jobs, workers', cfg) {
      ShrinkingKeepsChecks(c.claims[id].stage, c.jobs, c.workers, workers', cfg);
    }
  }

  lemma WriteJobKeepsInv(c: State, job: Job, cfg: Config)
    requires Inv(c, cfg) && Enabled(c, WriteJob(job), cfg)
    ensures var jobs' := c.jobs[job.jobId := job];
      Caps(jobs', c.workers, cfg) && OwnIds(jobs') && AllSound(c.claims, jobs', c.workers, cfg)
  {
    WritingKeepsCaps(c.jobs, c.workers, job, cfg);
    forall id | id in c.claims ensures Sound(c.claims[id].stage, c.jobs[job.jobId := job], c.workers, cfg) {
      WritingKeepsChecks(c.claims[id].stage, c.jobs, c.workers, job, cfg);
    }
  }

  lemma BeginKeepsInv(c: State, id: ClaimId, owner: string, ttlMs: int, cfg: Config)
    requires Inv(c, cfg) && Enabled(c, BeginClaim(id, owner, ttlMs), cfg)
    requires Timely(c, BeginClaim(id, owner, ttlMs), cfg) && Serial(c, BeginClaim(id, owner, ttlMs))
    ensures Inv(Begun(c, id, owner, ttlMs, cfg), cfg)
  {
    BeginKeepsLeases(c, id, owner, ttlMs, cfg);
  }

  lemma StepKeepsInv(c: State, step: Step, cfg: Config)
    requires Inv(c, cfg) && Enabled(c, step, cfg) && Timely(c, step, cfg) && Serial(c, step)
    ensures Inv(Next(c, step, cfg), cfg)
  {
    StepKeepsLeases(c, step, cfg);
    match step {
      case BeginClaim(id, owner, ttlMs) => BeginKeepsInv(c, id, owner, ttlMs, cfg);
      case CreateWorker(id, w) => CreateKeepsInv(c, id, w, cfg);
      case WriteClaim(id) => WriteKeepsInv(c, id, cfg);
      case Settle(w, status) => SettleKeepsInv(c, w, status, cfg);
      case WriteJob(job) => WriteJobKeepsInv(c, job, cfg);
      case GiveUp(id) =>
      case Requeue(id) =>
      case Tick(_) =>
      case Plane(_) =>
      case Queue(_) =>
      case ReadJob(id) => JobReadKeepsInv(c, id, cfg);
      case Decide(id) => DecisionKeepsInv(c, id, c.claims[id].stage, cfg);
      case _ => ReadKeepsInv(c, step, cfg);
    }
  }

  // ---- Runs ----

  ghost predicate EnabledRun(c: State, steps: seq<Step>, cfg: Config)
    decreases |steps|
  {
    steps != [] ==> Enabled(c, steps[0], cfg) && EnabledRun(Next(c, steps[0], cfg), steps[1..], cfg)
  }

  ghost predicate TimelyRun(c: State, steps: seq<Step>, cfg: Config)
    requires EnabledRun(c, steps, cfg)
    decreases |steps|
  {
    steps != [] ==> Timely(c, steps[0], cfg) && TimelyRun(Next(c, steps[0], cfg), steps[1..], cfg)
  }

  ghost predicate SerialRun(c: State, steps: seq<Step>, cfg: Config)
    requires EnabledRun(c, steps, cfg)
    decreases |steps|
  {
    steps != [] ==> Serial(c, steps[0]) && SerialRun(Next(c, steps[0], cfg), steps[1..], cfg)
  }

  ghost function Run(c: State, steps: seq<Step>, cfg: Config): State
    requires EnabledRun(c, steps, cfg)
    decreases |steps|
  {
    if steps == [] then c else Run(Next(c, steps[0], cfg), steps[1..], cfg)
  }

  lemma {:induction false} RunKeepsInv(c: State, steps: seq<Step>, cfg: Config)
    requires Inv(c, cfg) && EnabledRun(c, steps, cfg) && TimelyRun(c, steps, cfg) && SerialRun(c, steps, cfg)
    ensures Inv(Run(c, steps, cfg), cfg)
    decreases |steps|
  {
    if steps != [] {
      StepKeepsInv(c, steps[0], cfg);
      RunKeepsInv(Next(c, steps[0], cfg), steps[1..], cfg);
    }
  }

  /**
   Remote claims keep the caps when each scheduler answers one claim at a time: from any store within them, in every
   state of every such run, at most one claim is under way, at most `maxActiveWorkers` workers are schedulable, at
   most `maxWriteWorkersPerRepo` write to one repository, and no job has more than its `maxWorkers`.
   */
  lemma SerialClaimsAreSafe(c: State, steps: seq<Step>, cfg: Config)
    requires c.claims == map[] && Caps(c.jobs, c.workers, cfg) && OwnIds(c.jobs)
    requires EnabledRun(c, steps, cfg) && TimelyRun(c, steps, cfg) && SerialRun(c, steps, cfg)
    ensures var c' := Run(c, steps, cfg);
      && (forall id, k :: id in c'.claims && k in c'.claims ==> id == k)
      && |SchedulableIn(c'.workers)| <= cfg.maxActiveWorkers
      && (forall repo :: |WritersIn(c'.workers, repo)| <= cfg.maxWriteWorkersPerRepo)
      && forall j :: j in c'.jobs ==> |SchedulableOf(c'.workers, j)| <= c'.jobs[j].maxWorkers
  {
    RunKeepsInv(c, steps, cfg);
  }

  // ---- Claims that overlap ----

  /** These steps can be taken in time, and lead here. */
  ghost predicate Reached(start: State, steps: seq<Step>, c: State, cfg: Config) {
    EnabledRun(start, steps, cfg) && TimelyRun(start, steps, cfg) && Run(start, steps, cfg) == c
  }

  lemma {:induction false} AppendStep(start: State, steps: seq<Step>, c: State, step: Step, cfg: Config)
    requires Reached(start, steps, c, cfg) && Enabled(c, step, cfg) && Timely(c, step, cfg)
    ensures Reached(start, steps + [step], Next(c, step, cfg), cfg)
    ensures SerialRun(start, steps, cfg) && Serial(c, step) ==> SerialRun(start, steps + [step], cfg)
    decreases |steps|
  {
    var longer := steps + [step];
    if steps == [] {
      assert longer[1..] == [];
    } else {
      assert longer[1..] == steps[1..] + [step];
      AppendStep(Next(start, steps[0], cfg), steps[1..], c, step, cfg);
    }
  }

  lemma OneStepOn(start: State, steps: seq<Step>, c: State, step: Step, cfg: Config)
    returns (more: seq<Step>, c': State)
    requires Reached(start, steps, c, cfg) && Enabled(c, step, cfg) && Timely(c, step, cfg)
    ensures c' == Next(c, step, cfg) && Reached(start, more, c', cfg)
    ensures SerialRun(start, steps, cfg) && Serial(c, step) ==> SerialRun(start, more, cfg)
  {
    AppendStep(start, steps, c, step, cfg);
    more, c' := steps + [step], Next(c, step, cfg);
  }

  /** The scheduler would be granted the lease: it is free, has run out, or is its own. */
  predicate LeaseOpen(c: State, owner: string, cfg: Config) {
    var lease := C.Lookup(c.plane.leases, cfg.leaseKey);
    if cfg.controlPlane then lease.None? || lease.value.ownerId == owner || C.Expired(lease.value.expiresAt, c.now)
    else owner == LOCAL
  }

  lemma LeaseIsGranted(c: State, id: ClaimId, owner: string, ttlMs: int, cfg: Config)
    requires id !in c.claims && LeaseOpen(c, owner, cfg)
    ensures var c' := Begun(c, id, owner, ttlMs, cfg);
      && LeaseOpen(c', owner, cfg) && id in c'.claims && c'.claims[id].stage == Leased
      && c' == c.(plane := c'.plane, claims := c.claims[id := c'.claims[id]])
  {
    C.StepLease(c.plane, c.now, C.AcquireLease(cfg.leaseKey, owner, ttlMs), cfg.bump, cfg.leaseKey);
  }

  lemma Begins(start: State, steps: seq<Step>, c: State, id: ClaimId, owner: string, ttlMs: int, cfg: Config)
    returns (more: seq<Step>, c': State)
    requires Reached(start, steps, c, cfg) && id !in c.claims && LeaseOpen(c, owner, cfg) && ttlMs > 0
    ensures Reached(start, more, c', cfg) && LeaseOpen(c', owner, cfg)
    ensures c' == c.(plane := c'.plane, claims := c'.claims)
    ensures id in c'.claims && c'.claims == c.claims[id := c'.claims[id]] && c'.claims[id].stage == Leased
    ensures SerialRun(start, steps, cfg) && Serial(c, BeginClaim(id, owner, ttlMs)) ==> SerialRun(start, more, cfg)
  {
    LeaseIsGranted(c, id, owner, ttlMs, cfg);
    more, c' := OneStepOn(start, steps, c, BeginClaim(id, owner, ttlMs), cfg);
  }

  /** A claim begins, under a lease that stays open to its owner, and reads listing and view. */
  lemma Looks(start: State, steps: seq<Step>, c: State, id: ClaimId, owner: string, ttlMs: int, cfg: Config)
    returns (more: seq<Step>, c': State)
    requires Reached(start, steps, c, cfg) && id !in c.claims && LeaseOpen(c, owner, cfg) && ttlMs > 0
    ensures Reached(start, more, c', cfg) && LeaseOpen(c', owner, cfg)
    ensures c'.jobs == c.jobs && c'.workers == c.workers && c'.queue == c.queue && c'.now == c.now
    ensures id in c'.claims && c'.claims[id].stage == Scanning(QueueSpec.Listed(c.queue), 0, ViewOf(c.workers))
    ensures c'.claims == c.claims[id := c'.claims[id]]
    ensures SerialRun(start, steps, cfg) && Serial(c, BeginClaim(id, owner, ttlMs)) ==> SerialRun(start, more, cfg)
  {
    more, c' := Begins(start, steps, c, id, owner, ttlMs, cfg);
    more, c' := Reads(start, more, c', id, cfg);
  }

  lemma Reads(start: State, steps: seq<Step>, c: State, id: ClaimId, cfg: Config) returns (more: seq<Step>, c': State)
    requires Reached(start, steps, c, cfg) && id in c.claims && c.claims[id].stage == Leased
    ensures Reached(start, more, c', cfg)
    ensures c' == At(c, id, Scanning(QueueSpec.Listed(c.queue), 0, ViewOf(c.workers)))
    ensures SerialRun(start, steps, cfg) ==> SerialRun(start, more, cfg)
  {
    more, c' := OneStepOn(start, steps, c, ReadListing(id), cfg);
    more, c' := OneStepOn(start, more, c', ReadView(id), cfg);
  }

  /** By this view and these workers the job may be given one more. */
  predicate Claimable(job: Job, view: Workers, workers: Workers, cfg: Config) {
    && !TerminalJob(job.status) && !Full(job, workers) && CanDispatch(|view|, cfg.maxActiveWorkers)
    && !HasWriteConflict(job.isolationMode, job.repoPath, view, cfg.maxWriteWorkersPerRepo)
  }

  /** A claim chooses the first job it has listed. */
  lemma Chooses(start: State, steps: seq<Step>, c: State, id: ClaimId, s: Stage, cfg: Config)
    returns (more: seq<Step>, c': State)
    requires Reached(start, steps, c, cfg) && id in c.claims && c.claims[id].stage == s
    requires s.Scanning? && s.next < |s.listing| && s.listing[s.next].jobId in c.jobs && OwnIds(c.jobs)
    requires Claimable(c.jobs[s.listing[s.next].jobId], s.view, c.workers, cfg)
    ensures Reached(start, more, c', cfg) && c'.jobs == c.jobs && c'.workers == c.workers
    ensures c'.claims == c.claims[id := c.claims[id].(stage := Chosen(s.view, c.jobs[s.listing[s.next].jobId]))]
    ensures c'.queue == QueueSpec.Remove(c.queue, s.listing[s.next].jobId)
    ensures SerialRun(start, steps, cfg) ==> SerialRun(start, more, cfg)
  {
    more, c' := OneStepOn(start, steps, c, ReadJob(id), cfg);
    more, c' := OneStepOn(start, more, c', Decide(id), cfg);
  }

  /** A claim that has chosen makes its worker and hands it out. */
  lemma Takes(start: State, steps: seq<Step>, c: State, id: ClaimId, s: Stage, p: WorkerId, cfg: Config)
    returns (more: seq<Step>, c': State)
    requires Reached(start, steps, c, cfg) && id in c.claims && c.claims[id].stage == s && s.Chosen?
    requires p !in c.workers && p !in s.view
    ensures Reached(start, more, c', cfg) && c'.jobs == c.jobs
    ensures c'.workers == c.workers[p := Started(p, Latest(c, s.job))] && c'.queue == c.queue
    ensures SerialRun(start, steps, cfg) ==> SerialRun(start, more, cfg)
    ensures c'.claims == c.claims[id := c.claims[id].(stage := HandedOut(s.view, s.job, p))]
  {
    more, c' := OneStepOn(start, steps, c, CreateWorker(id, p), cfg);
    more, c' := HandsOut(start, more, c', id, WorkerMade(s.view, s.job, p), cfg);
  }

  lemma HandsOut(start: State, steps: seq<Step>, c: State, id: ClaimId, s: Stage, cfg: Config)
    returns (more: seq<Step>, c': State)
    requires Reached(start, steps, c, cfg) && id in c.claims && c.claims[id].stage == s && s.WorkerMade?
    requires s.workerId in c.workers
    ensures Reached(start, more, c', cfg) && c'.jobs == c.jobs
    ensures c'.workers == c.workers[s.workerId := ClaimedRecord(c.workers[s.workerId])] && c'.queue == c.queue
    ensures SerialRun(start, steps, cfg) ==> SerialRun(start, more, cfg)
    ensures c'.claims == c.claims[id := c.claims[id].(stage := HandedOut(s.view, s.job, s.workerId))]
  {
    more, c' := OneStepOn(start, steps, c, ReadWorker(id), cfg);
    more, c' := OneStepOn(start, more, c', WriteClaim(id), cfg);
  }

  function Started(p: WorkerId, job: Job): Worker {
    NewWorker(p, job).(status := WorkerStatus.Starting)
  }

  lemma OneMoreWriter(workers: Workers, w: Worker)
    requires w.workerId !in workers && Writing(w, w.repoPath)
    ensures |WritersIn(workers[w.workerId := w], w.repoPath)| == |WritersIn(workers, w.repoPath)| + 1
  {
    assert WritersIn(workers[w.workerId := w], w.repoPath) == WritersIn(workers, w.repoPath) + {w.workerId};
  }

  /** A worker started for a job counts one more everywhere. */
  lemma OneMore(workers: Workers, job: Job, p: WorkerId)
    requires p !in workers
    ensures var after := workers[p := Started(p, job)];
      && |SchedulableIn(after)| == |SchedulableIn(workers)| + 1
      && |SchedulableOf(after, job.jobId)| == |SchedulableOf(workers, job.jobId)| + 1
      && (job.isolationMode == Worktree ==> |WritersIn(after, job.repoPath)| == |WritersIn(workers, job.repoPath)| + 1)
  {
    var w := Started(p, job);
    OneMoreSchedulable(workers, w);
    SchedulableAfterAdding(workers, w, job.jobId);
    if job.isolationMode == Worktree {
      OneMoreWriter(workers, w);
    }
  }

  /**
   Two claims of one scheduler that overlap both take the job listed first if either alone may, whatever the store: so
   each of the three caps that has exactly one place left is exceeded. Both are granted the lease, the second time as a
   renewal, and both end in time.
   */
  lemma OverlappingClaimsAddTwo(c: State, a: ClaimId, b: ClaimId, owner: string, ttlMs: int, p: WorkerId, q: WorkerId,
      cfg: Config)
    returns (steps: seq<Step>)
    requires c.claims == map[] && a != b && LeaseOpen(c, owner, cfg) && ttlMs > 0 && OwnIds(c.jobs)
    requires p !in c.workers && q !in c.workers && p != q
    requires QueueSpec.Listed(c.queue) != [] && QueueSpec.Listed(c.queue)[0].jobId in c.jobs
    requires Claimable(c.jobs[QueueSpec.Listed(c.queue)[0].jobId], ViewOf(c.workers), c.workers, cfg)
    ensures EnabledRun(c, steps, cfg) && TimelyRun(c, steps, cfg)
    ensures var job, workers := c.jobs[QueueSpec.Listed(c.queue)[0].jobId], Run(c, steps, cfg).workers;
      && |SchedulableIn(workers)| == |SchedulableIn(c.workers)| + 2
      && |SchedulableOf(workers, job.jobId)| == |SchedulableOf(c.workers, job.jobId)| + 2
      && (job.isolationMode == Worktree ==>
            |WritersIn(workers, job.repoPath)| == |WritersIn(c.workers, job.repoPath)| + 2)
  {
    var listing, view := QueueSpec.Listed(c.queue), ViewOf(c.workers);
    var job := c.jobs[listing[0].jobId];
    var now := c;
    steps := [];
    steps, now := Looks(c, steps, now, a, owner, ttlMs, cfg);
    steps, now := Looks(c, steps, now, b, owner, ttlMs, cfg);
    steps, now := Chooses(c, steps, now, a, Scanning(listing, 0, view), cfg);
    steps, now := Chooses(c, steps, now, b, Scanning(listing, 0, view), cfg);
    steps, now := Takes(c, steps, now, a, Chosen(view, job), p, cfg);
    steps, now := Takes(c, steps, now, b, Chosen(view, job), q, cfg);
    OneMore(c.workers, job, p);
    OneMore(c.workers[p := Started(p, job)], job, q);
  }
}
