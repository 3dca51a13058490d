/**
 Several schedulers over one coordinator and one store (src/scheduler/scheduler.ts with src/control/coordination.ts).
 Every store or coordinator call is one step, and the steps of all schedulers, of other coordinator clients and of
 workers that come to an end are interleaved in any order.
 */
module Cluster {
  import opened Wrappers
  import opened StateMachine
  import opened Models
  import opened Policies
  import opened DispatchView
  import C = Coordination

  /** The worker a pass is creating and starting; `started` once it has been written active. */
  datatype Pending = Pending(workerId: WorkerId, started: bool)

  /** A pass: it holds a lease it was granted until `expiresAt`; then it also has its list of active workers. */
  datatype Pass = Leased(expiresAt: int) | Viewing(expiresAt: int, view: Workers, pending: Option<Pending>)

  datatype State = State(now: int, plane: C.State, workers: Workers, passes: map<string, Pass>)

  datatype Config = Config(leaseKey: string, maxActiveWorkers: nat, maxWriteWorkersPerRepo: nat, bump: bool)

  datatype Step =
    | Tick(dt: nat)
    | Plane(op: C.Op)
    | BeginPass(executorId: string, ttlMs: int)
    | Snapshot(executorId: string)
    | Create(executorId: string, worker: Worker)
    | MarkStarting(executorId: string)
    | Activate(executorId: string)
    | CountStarted(executorId: string)
    | FailStart(executorId: string)
    | Abandon(executorId: string)
    | EndPass(executorId: string)
    | Settle(workerId: WorkerId, status: WorkerStatus)

  predicate HasPending(c: State, s: string) {
    s in c.passes && c.passes[s].Viewing? && c.passes[s].pending.Some?
  }

  /**
   The code's own guards. A worker is write-capable exactly when its job is isolated in a worktree, so the conflict
   test is put to the worker.
   */
  ghost predicate Enabled(c: State, step: Step, cfg: Config) {
    match step
    case Tick(_) => true
    case Plane(_) => true
    case BeginPass(s, _) => s !in c.passes
    case Snapshot(s) => s in c.passes && c.passes[s].Leased?
    case Create(s, w) =>
      && s in c.passes && c.passes[s].Viewing? && c.passes[s].pending.None?
      && w.workerId !in c.workers && w.workerId !in c.passes[s].view && w.status.Created?
      && CanDispatch(|c.passes[s].view|, cfg.maxActiveWorkers)
      && !HasWriteConflict(if w.writeCapable then Worktree else NoIsolation, w.repoPath, c.passes[s].view,
           cfg.maxWriteWorkersPerRepo)
    case MarkStarting(s) => HasPending(c, s) && c.passes[s].pending.value.workerId in c.workers
    case Activate(s) => HasPending(c, s) && c.passes[s].pending.value.workerId in c.workers
    case CountStarted(s) => HasPending(c, s) && c.passes[s].pending.value.started
        && c.passes[s].pending.value.workerId in c.workers
    case FailStart(s) => HasPending(c, s) && c.passes[s].pending.value.workerId in c.workers
    case Abandon(s) => HasPending(c, s) && !c.passes[s].pending.value.started
    case EndPass(s) => s in c.passes
    case Settle(w, status) =>
      w in c.workers && ValidWorker(c.workers[w].status, status) && status != WorkerStatus.Active
  }

  predicate Disturbs(op: C.Op, leaseKey: string, passing: set<string>) {
    match op
    case AcquireLease(key, owner, _) => key == leaseKey && owner in passing
    case ReleaseLease(key, owner) => key == leaseKey && owner in passing
    case UnregisterExecutor(executor) => executor in passing
    case _ => false
  }

  /**
   What is asked of the surroundings: a pass ends before the lease it was granted expires, and nobody stops,
   unregisters or renews a scheduler that is in a pass.
   */
  ghost predicate Timely(c: State, step: Step, cfg: Config) {
    match step
    case Tick(dt) => forall s :: s in c.passes ==> c.now + dt < c.passes[s].expiresAt
    case BeginPass(_, ttlMs) => ttlMs > 0
    case Plane(op) => !Disturbs(op, cfg.leaseKey, c.passes.Keys)
    case _ => true
  }

  function WithStatus(workers: Workers, w: WorkerId, status: WorkerStatus): Workers
    requires w in workers
  {
    workers[w := workers[w].(status := status)]
  }

  function Next(c: State, step: Step, cfg: Config): State {
    match step
    case Tick(dt) => c.(now := c.now + dt)
    case Plane(op) => c.(plane := C.Step(c.plane, c.now, op, cfg.bump).0)
    case BeginPass(s, ttlMs) =>
      var (plane, reply) := C.Step(c.plane, c.now, C.AcquireLease(cfg.leaseKey, s, ttlMs), cfg.bump);
      if reply.LeaseReply? && reply.lease.Some?
      then c.(plane := plane, passes := c.passes[s := Leased(reply.lease.value.expiresAt)])
      else c.(plane := plane)
    case Snapshot(s) =>
      if s in c.passes && c.passes[s].Leased?
      then c.(passes := c.passes[s := Viewing(c.passes[s].expiresAt, ViewOf(c.workers), None)]) else c
    case Create(s, w) =>
      if s in c.passes && c.passes[s].Viewing?
      then c.(workers := c.workers[w.workerId := w],
              passes := c.passes[s := c.passes[s].(pending := Some(Pending(w.workerId, false)))]) else c
    case MarkStarting(s) =>
      if HasPending(c, s) && c.passes[s].pending.value.workerId in c.workers
      then c.(workers := WithStatus(c.workers, c.passes[s].pending.value.workerId, WorkerStatus.Starting)) else c
    case Activate(s) =>
      if HasPending(c, s) && c.passes[s].pending.value.workerId in c.workers
      then
        var w := c.passes[s].pending.value.workerId;
        c.(workers := WithStatus(c.workers, w, WorkerStatus.Active),
           passes := c.passes[s := c.passes[s].(pending := Some(Pending(w, true)))])
      else c
    case CountStarted(s) =>
      if HasPending(c, s) && c.passes[s].pending.value.workerId in c.workers
      then
        var w := c.passes[s].pending.value.workerId;
        var view := c.passes[s].view[w := c.workers[w].(status := WorkerStatus.Active)];
        c.(passes := c.passes[s := c.passes[s].(view := view, pending := None)])
      else c
    case FailStart(s) =>
      if HasPending(c, s) && c.passes[s].pending.value.workerId in c.workers
      then c.(workers := WithStatus(c.workers, c.passes[s].pending.value.workerId, WorkerStatus.Failed),
              passes := c.passes[s := c.passes[s].(pending := None)])
      else c
    case Abandon(s) => if HasPending(c, s) then c.(passes := c.passes[s := c.passes[s].(pending := None)]) else c
    case EndPass(s) => c.(passes := c.passes - {s})
    case Settle(w, status) => if w in c.workers then c.(workers := WithStatus(c.workers, w, status)) else c
  }

  // ---- Invariants ----

  function StoredLease(c: State, cfg: Config): Option<C.Lease> {
    C.Lookup(c.plane.leases, cfg.leaseKey)
  }

  /** A scheduler in a pass owns the stored lease, which has not expired. */
  ghost predicate HoldsLease(c: State, s: string, cfg: Config) {
    && s in c.passes && StoredLease(c, cfg).Some?
    && var lease := StoredLease(c, cfg).value;
       lease.ownerId == s && lease.expiresAt == c.passes[s].expiresAt && !C.Expired(lease.expiresAt, c.now)
  }

  ghost predicate Leases(c: State, cfg: Config) {
    forall s :: s in c.passes ==> HoldsLease(c, s, cfg)
  }

  predicate SameKind(a: Worker, b: Worker) {
    a.repoPath == b.repoPath && a.writeCapable == b.writeCapable
  }

  /** Whatever is active in the store, the pass has in its list as active, or is just starting. */
  ghost predicate Covered(pass: Pass, workers: Workers) {
    pass.Viewing? ==>
      forall w :: w in workers && workers[w].status == WorkerStatus.Active ==>
        || (w in pass.view && pass.view[w].status == WorkerStatus.Active && SameKind(pass.view[w], workers[w]))
        || (pass.pending.Some? && pass.pending.value.workerId == w)
  }

  /** What the pass has checked before it created its pending worker. */
  ghost predicate Checked(pass: Pass, workers: Workers, cfg: Config) {
    pass.Viewing? && pass.pending.Some? ==>
      var p := pass.pending.value.workerId;
      && p in workers && p !in pass.view && |pass.view| < cfg.maxActiveWorkers
      && (workers[p].writeCapable ==> |WritersIn(pass.view, workers[p].repoPath)| < cfg.maxWriteWorkersPerRepo)
      && (workers[p].status == WorkerStatus.Active ==> pass.pending.value.started)
  }

  ghost predicate Caps(workers: Workers, cfg: Config) {
    && |ActiveIn(workers)| <= cfg.maxActiveWorkers
    && forall repo :: |ActiveWritersIn(workers, repo)| <= cfg.maxWriteWorkersPerRepo
  }

  ghost predicate Inv(c: State, cfg: Config) {
    && Leases(c, cfg) && Caps(c.workers, cfg)
    && forall s :: s in c.passes ==> Covered(c.passes[s], c.workers) && Checked(c.passes[s], c.workers, cfg)
  }

  /** Passes of different executors never overlap. */
  lemma OnePass(c: State, cfg: Config, s: string, t: string)
    requires Leases(c, cfg) && s in c.passes && t in c.passes
    ensures s == t
  {
    assert HoldsLease(c, s, cfg) && HoldsLease(c, t, cfg);
  }

  lemma StepKeepsLeases(c: State, step: Step, cfg: Config)
    requires Leases(c, cfg) && Enabled(c, step, cfg) && Timely(c, step, cfg)
    ensures Leases(Next(c, step, cfg), cfg)
  {
    var c' := Next(c, step, cfg);
    match step {
      case Plane(op) =>
        C.StepLease(c.plane, c.now, op, cfg.bump, cfg.leaseKey);
        forall s | s in c'.passes ensures HoldsLease(c', s, cfg) {
          assert HoldsLease(c, s, cfg);
        }
      case BeginPass(s, ttlMs) =>
        C.StepLease(c.plane, c.now, C.AcquireLease(cfg.leaseKey, s, ttlMs), cfg.bump, cfg.leaseKey);
        forall t | t in c'.passes ensures HoldsLease(c', t, cfg) {
          assert t != s ==> HoldsLease(c, t, cfg);
        }
      case EndPass(t) =>
        forall s ensures s !in c'.passes {
          if s in c.passes {
            OnePass(c, cfg, s, t);
          }
        }
      case _ =>
        forall s | s in c'.passes ensures HoldsLease(c', s, cfg) {
          assert HoldsLease(c, s, cfg);
        }
    }
  }

  /** Moving one worker to a status other than active. */
  lemma SettlingKeepsCaps(workers: Workers, w: WorkerId, status: WorkerStatus, cfg: Config)
    requires Caps(workers, cfg) && w in workers && status != WorkerStatus.Active
    ensures Caps(WithStatus(workers, w, status), cfg)
  {
    var workers' := WithStatus(workers, w, status);
    SubsetSize(ActiveIn(workers'), ActiveIn(workers));
    forall repo ensures |ActiveWritersIn(workers', repo)| <= cfg.maxWriteWorkersPerRepo {
      SubsetSize(ActiveWritersIn(workers', repo), ActiveWritersIn(workers, repo));
    }
  }

  /** Activating the pending worker of a pass that covers the store: the caps the pass checked become the store's. */
  lemma ActivatingKeepsCaps(workers: Workers, pass: Pass, cfg: Config)
    requires Caps(workers, cfg) && pass.Viewing? && pass.pending.Some?
    requires Covered(pass, workers) && Checked(pass, workers, cfg)
    ensures Caps(WithStatus(workers, pass.pending.value.workerId, WorkerStatus.Active), cfg)
  {
    var p := pass.pending.value.workerId;
    var workers' := WithStatus(workers, p, WorkerStatus.Active);
    SubsetSize(ActiveIn(workers'), pass.view.Keys + {p});
    assert |pass.view.Keys + {p}| <= |pass.view.Keys| + 1;
    forall repo ensures |ActiveWritersIn(workers', repo)| <= cfg.maxWriteWorkersPerRepo {
      if Writing(workers'[p], repo) {
        SubsetSize(ActiveWritersIn(workers', repo), WritersIn(pass.view, repo) + {p});
        assert |WritersIn(pass.view, repo) + {p}| <= |WritersIn(pass.view, repo)| + 1;
      } else {
        SubsetSize(ActiveWritersIn(workers', repo), ActiveWritersIn(workers, repo));
      }
    }
  }

  lemma StepKeepsCaps(c: State, step: Step, cfg: Config)
    requires Inv(c, cfg) && Enabled(c, step, cfg)
    ensures Caps(Next(c, step, cfg).workers, cfg)
  {
    match step {
      case Create(s, w) =>
        var workers' := c.workers[w.workerId := w];
        assert ActiveIn(workers') == ActiveIn(c.workers);
        forall repo ensures ActiveWritersIn(workers', repo) == ActiveWritersIn(c.workers, repo) {}
      case MarkStarting(s) => SettlingKeepsCaps(c.workers, c.passes[s].pending.value.workerId, WorkerStatus.Starting,
          cfg);
      case Activate(s) => ActivatingKeepsCaps(c.workers, c.passes[s], cfg);
      case FailStart(s) => SettlingKeepsCaps(c.workers, c.passes[s].pending.value.workerId, WorkerStatus.Failed, cfg);
      case Settle(w, status) => SettlingKeepsCaps(c.workers, w, status, cfg);
      case _ =>
    }
  }

  /** The step of a pass keeps what its list promises; there is no other pass. */
  lemma StepKeepsViews(c: State, step: Step, cfg: Config, s: string)
    requires Inv(c, cfg) && Enabled(c, step, cfg) && s in Next(c, step, cfg).passes
    ensures var c' := Next(c, step, cfg); Covered(c'.passes[s], c'.workers) && Checked(c'.passes[s], c'.workers, cfg)
  {
    if s in c.passes {
      match step {
        case BeginPass(_, _) =>
        case Snapshot(t) => OnePass(c, cfg, s, t);
        case Create(t, _) => OnePass(c, cfg, s, t);
        case MarkStarting(t) => OnePass(c, cfg, s, t);
        case Activate(t) => OnePass(c, cfg, s, t);
        case CountStarted(t) => OnePass(c, cfg, s, t);
        case FailStart(t) => OnePass(c, cfg, s, t);
        case Abandon(t) => OnePass(c, cfg, s, t);
        case _ =>
      }
    }
  }

  lemma StepKeepsInv(c: State, step: Step, cfg: Config)
    requires Inv(c, cfg) && Enabled(c, step, cfg) && Timely(c, step, cfg)
    ensures Inv(Next(c, step, cfg), cfg)
  {
    var c' := Next(c, step, cfg);
    StepKeepsLeases(c, step, cfg);
    StepKeepsCaps(c, step, cfg);
    forall s | s in c'.passes ensures Covered(c'.passes[s], c'.workers) && Checked(c'.passes[s], c'.workers, cfg) {
      StepKeepsViews(c, step, cfg, s);
    }
  }

  // ---- Runs ----

  function Run(c: State, steps: seq<Step>, cfg: Config): State
    decreases |steps|
  {
    if steps == [] then c else Run(Next(c, steps[0], cfg), steps[1..], cfg)
  }

  ghost predicate EnabledRun(c: State, steps: seq<Step>, cfg: Config)
    decreases |steps|
  {
    steps != [] ==> Enabled(c, steps[0], cfg) && EnabledRun(Next(c, steps[0], cfg), steps[1..], cfg)
  }

  ghost predicate TimelyRun(c: State, steps: seq<Step>, cfg: Config)
    decreases |steps|
  {
    steps != [] ==> Timely(c, steps[0], cfg) && TimelyRun(Next(c, steps[0], cfg), steps[1..], cfg)
  }

  lemma {:induction false} RunKeepsInv(c: State, steps: seq<Step>, cfg: Config)
    requires Inv(c, cfg) && EnabledRun(c, steps, cfg) && TimelyRun(c, steps, cfg)
    ensures Inv(Run(c, steps, cfg), cfg)
    decreases |steps|
  {
    if steps != [] {
      StepKeepsInv(c, steps[0], cfg);
      RunKeepsInv(Next(c, steps[0], cfg), steps[1..], cfg);
    }
  }

  /**
   Cluster safety. From any store within the caps and any coordinator state, in every state of every timely run: at
   most one scheduler is in a pass, at most `maxActiveWorkers` workers are active, and at most
   `maxWriteWorkersPerRepo` of them write to one repository.
   */
  lemma ClusterIsSafe(now: int, plane: C.State, workers: Workers, steps: seq<Step>, cfg: Config)
    requires Caps(workers, cfg)
    requires EnabledRun(State(now, plane, workers, map[]), steps, cfg)
             && TimelyRun(State(now, plane, workers, map[]), steps, cfg)
    ensures var c := Run(State(now, plane, workers, map[]), steps, cfg);
      && (forall s, t :: s in c.passes && t in c.passes ==> s == t)
      && |ActiveIn(c.workers)| <= cfg.maxActiveWorkers
      && forall repo :: |ActiveWritersIn(c.workers, repo)| <= cfg.maxWriteWorkersPerRepo
  {
    var start := State(now, plane, workers, map[]);
    RunKeepsInv(start, steps, cfg);
    var c := Run(start, steps, cfg);
    forall s, t | s in c.passes && t in c.passes ensures s == t {
      OnePass(c, cfg, s, t);
    }
  }

  lemma RunCons(c: State, step: Step, rest: seq<Step>, cfg: Config)
    ensures Run(c, [step] + rest, cfg) == Run(Next(c, step, cfg), rest, cfg)
    ensures EnabledRun(c, [step] + rest, cfg) <==> Enabled(c, step, cfg) && EnabledRun(Next(c, step, cfg), rest, cfg)
    ensures TimelyRun(c, [step] + rest, cfg) <==> Timely(c, step, cfg) && TimelyRun(Next(c, step, cfg), rest, cfg)
  {
    assert ([step] + rest)[1..] == rest;
  }

  const TWO_PASSES: Config := Config("scheduler:dispatch", 1, 1, false)

  function SomeWorker(w: WorkerId): Worker {
    Worker(w, w, WorkerStatus.Created, "r", false, false)
  }

  /** One worker created and started by a pass whose list is empty. */
  lemma OneStart(c: State, s: string, w: WorkerId, rest: seq<Step>, cfg: Config) returns (started: State)
    requires s in c.passes && c.passes[s].Viewing? && c.passes[s].pending.None? && c.passes[s].view == map[]
    requires cfg.maxActiveWorkers >= 1 && w !in c.workers
    ensures EnabledRun(c, [Create(s, SomeWorker(w))] + ([Activate(s)] + rest), cfg) <==> EnabledRun(started, rest, cfg)
    ensures Run(c, [Create(s, SomeWorker(w))] + ([Activate(s)] + rest), cfg) == Run(started, rest, cfg)
    ensures started.workers == c.workers[w := SomeWorker(w).(status := WorkerStatus.Active)]
    ensures started.passes == c.passes[s := c.passes[s].(pending := Some(Pending(w, true)))]
  {
    var created := Next(c, Create(s, SomeWorker(w)), cfg);
    RunCons(c, Create(s, SomeWorker(w)), [Activate(s)] + rest, cfg);
    RunCons(created, Activate(s), rest, cfg);
    started := Next(created, Activate(s), cfg);
  }

  /** One worker created and left starting by a pass whose list is empty. */
  lemma OneAbandon(c: State, s: string, w: WorkerId, rest: seq<Step>, cfg: Config) returns (left: State)
    requires s in c.passes && c.passes[s].Viewing? && c.passes[s].pending.None? && c.passes[s].view == map[]
    requires cfg.maxActiveWorkers >= 1 && w !in c.workers
    ensures var steps := [Create(s, SomeWorker(w))] + ([MarkStarting(s)] + ([Abandon(s)] + rest));
      && (EnabledRun(c, steps, cfg) && TimelyRun(c, steps, cfg) <==>
           EnabledRun(left, rest, cfg) && TimelyRun(left, rest, cfg))
      && Run(c, steps, cfg) == Run(left, rest, cfg)
    ensures left.workers == c.workers[w := SomeWorker(w).(status := WorkerStatus.Starting)] && left.passes == c.passes
  {
    RunCons(c, Create(s, SomeWorker(w)), [MarkStarting(s)] + ([Abandon(s)] + rest), cfg);
    var created := Next(c, Create(s, SomeWorker(w)), cfg);
    RunCons(created, MarkStarting(s), [Abandon(s)] + rest, cfg);
    var starting := Next(created, MarkStarting(s), cfg);
    RunCons(starting, Abandon(s), rest, cfg);
    left := Next(starting, Abandon(s), cfg);
    assert left.passes == c.passes;
  }

  /** A lease that is free or has expired is granted. */
  lemma BeginIsGranted(c: State, s: string, ttlMs: int, cfg: Config)
    requires s !in c.passes && ttlMs > 0
    requires StoredLease(c, cfg).Some? ==> C.Expired(StoredLease(c, cfg).value.expiresAt, c.now)
    ensures var leased := Next(c, BeginPass(s, ttlMs), cfg);
      && leased.passes == c.passes[s := Leased(c.now + ttlMs)] && leased.workers == c.workers && leased.now == c.now
      && StoredLease(leased, cfg).Some? && StoredLease(leased, cfg).value.expiresAt == c.now + ttlMs
  {
    C.StepLease(c.plane, c.now, C.AcquireLease(cfg.leaseKey, s, ttlMs), cfg.bump, cfg.leaseKey);
  }

  /** Beginning a pass when the lease is free or has expired. */
  lemma OneBegin(c: State, s: string, ttlMs: int, rest: seq<Step>, cfg: Config) returns (begun: State)
    requires s !in c.passes && ttlMs > 0
    requires StoredLease(c, cfg).Some? ==> C.Expired(StoredLease(c, cfg).value.expiresAt, c.now)
    ensures var steps := [BeginPass(s, ttlMs)] + ([Snapshot(s)] + rest);
      && (EnabledRun(c, steps, cfg) <==> EnabledRun(begun, rest, cfg))
           && (TimelyRun(c, steps, cfg) <==> TimelyRun(begun, rest, cfg))
      && Run(c, steps, cfg) == Run(begun, rest, cfg)
    ensures begun.passes == c.passes[s := Viewing(c.now + ttlMs, ViewOf(c.workers), None)]
    ensures begun == Next(Next(c, BeginPass(s, ttlMs), cfg), Snapshot(s), cfg) && begun.workers == c.workers
            && begun.now == c.now
    ensures StoredLease(begun, cfg).Some? && StoredLease(begun, cfg).value.expiresAt == c.now + ttlMs
  {
    BeginIsGranted(c, s, ttlMs, cfg);
    RunCons(c, BeginPass(s, ttlMs), [Snapshot(s)] + rest, cfg);
    var leased := Next(c, BeginPass(s, ttlMs), cfg);
    RunCons(leased, Snapshot(s), rest, cfg);
    begun := Next(leased, Snapshot(s), cfg);
  }

  /** Two passes at once, each with an empty list, start a worker each. */
  lemma BothStart(c: State, cfg: Config) returns (steps: seq<Step>)
    requires cfg.maxActiveWorkers >= 1 && c.workers == map[]
    requires forall s :: s in {"a", "b"} ==>
      s in c.passes && c.passes[s].Viewing? && c.passes[s].pending.None? && c.passes[s].view == map[]
    ensures EnabledRun(c, steps, cfg) && ActiveIn(Run(c, steps, cfg).workers) == {0, 1}
  {
    var c' := c;
    var last: seq<Step> := [];
    var tail := [Create("b", SomeWorker(1))] + ([Activate("b")] + last);
    steps := [Create("a", SomeWorker(0))] + ([Activate("a")] + tail);
    assert "a" in {"a", "b"} && "b" in {"a", "b"};
    c' := OneStart(c, "a", 0, tail, cfg);
    c' := OneStart(c', "b", 1, last, cfg);
    assert ActiveIn(c'.workers) == {0, 1};
  }

  /** A pass that outlives its lease breaks the cap: two workers are active where one is allowed. */
  lemma LatePassBreaksCap(now: int) returns (steps: seq<Step>)
    ensures var cfg := TWO_PASSES;
      var c := State(now, C.INITIAL, map[], map[]);
      EnabledRun(c, steps, cfg) && |ActiveIn(Run(c, steps, cfg).workers)| > cfg.maxActiveWorkers
  {
    var cfg := TWO_PASSES;
    var c := State(now, C.INITIAL, map[], map[]);
    steps := SecondBegins(c, cfg);
  }

  lemma SecondBegins(c: State, cfg: Config) returns (steps: seq<Step>)
    requires cfg.maxActiveWorkers >= 1 && c.workers == map[] && c.passes == map[] && StoredLease(c, cfg).None?
    ensures EnabledRun(c, steps, cfg) && ActiveIn(Run(c, steps, cfg).workers) == {0, 1}
  {
    // The steps are found backwards: what follows a step is given to it as a whole.
    var probe := OneBegin(c, "a", 10, [], cfg);
    steps := LateTick(probe, cfg);
    var begun := OneBegin(c, "a", 10, steps, cfg);
    assert begun == probe;
    steps := [BeginPass("a", 10)] + ([Snapshot("a")] + steps);
  }

  lemma LateTick(c: State, cfg: Config) returns (steps: seq<Step>)
    requires cfg.maxActiveWorkers >= 1 && c.workers == map[]
    requires c.passes == map["a" := Viewing(c.now + 10, map[], None)]
    requires StoredLease(c, cfg).Some? && StoredLease(c, cfg).value.expiresAt == c.now + 10
    ensures EnabledRun(c, steps, cfg) && ActiveIn(Run(c, steps, cfg).workers) == {0, 1}
  {
    var late := c.(now := c.now + 10);
    var probe := OneBegin(late, "b", 10, [], cfg);
    assert probe.passes["b"].view == map[];
    steps := BothStart(probe, cfg);
    var begun := OneBegin(late, "b", 10, steps, cfg);
    steps := [BeginPass("b", 10)] + ([Snapshot("b")] + steps);
    RunCons(c, Tick(10), steps, cfg);
    steps := [Tick(10)] + steps;
  }

  /**
   Schedulable workers are not capped, even by one pass alone: a worker whose worktree could not be made is left
   starting, and the pass does not count it.
   */
  lemma SchedulableIsNotCapped(now: int) returns (steps: seq<Step>)
    ensures var cfg := TWO_PASSES;
      var c := State(now, C.INITIAL, map[], map[]);
      EnabledRun(c, steps, cfg) && TimelyRun(c, steps, cfg)
          && |SchedulableIn(Run(c, steps, cfg).workers)| > cfg.maxActiveWorkers
  {
    var cfg := TWO_PASSES;
    var c := State(now, C.INITIAL, map[], map[]);
    var probe := OneBegin(c, "a", 10, [], cfg);
    steps := BothAbandoned(probe, cfg);
    var begun := OneBegin(c, "a", 10, steps, cfg);
    steps := [BeginPass("a", 10)] + ([Snapshot("a")] + steps);
  }

  lemma BothAbandoned(c: State, cfg: Config) returns (steps: seq<Step>)
    requires cfg.maxActiveWorkers >= 1 && c.workers == map[]
    requires "a" in c.passes && c.passes["a"].Viewing? && c.passes["a"].pending.None? && c.passes["a"].view == map[]
    ensures EnabledRun(c, steps, cfg) && TimelyRun(c, steps, cfg) && SchedulableIn(Run(c, steps, cfg).workers) == {0, 1}
  {
    var last: seq<Step> := [];
    var tail := [Create("a", SomeWorker(1))] + ([MarkStarting("a")] + ([Abandon("a")] + last));
    steps := [Create("a", SomeWorker(0))] + ([MarkStarting("a")] + ([Abandon("a")] + tail));
    var c1 := OneAbandon(c, "a", 0, tail, cfg);
    var c2 := OneAbandon(c1, "a", 1, last, cfg);
    assert SchedulableIn(c2.workers) == {0, 1};
  }
}
