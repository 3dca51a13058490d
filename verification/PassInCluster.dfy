/**
 The pass as one scheduler runs it (`Scheduling`) against the pass as its steps are interleaved with everybody else's
 (`Cluster`): run alone, it is a run of those steps.
 */
module PassInCluster {
  import opened Wrappers
  import opened StateMachine
  import opened Models
  import opened Policies
  import opened DispatchView
  import opened Cluster
  import Scheduling

  /** These steps can be taken, in time, and lead here. */
  ghost predicate Reached(start: State, steps: seq<Step>, c: State, cfg: Config) {
    EnabledRun(start, steps, cfg) && TimelyRun(start, steps, cfg) && Run(start, steps, cfg) == c
  }

  lemma {:induction false} AppendStep(start: State, steps: seq<Step>, c: State, step: Step, cfg: Config)
    requires Reached(start, steps, c, cfg) && Enabled(c, step, cfg) && Timely(c, step, cfg)
    ensures Reached(start, steps + [step], Next(c, step, cfg), cfg)
    decreases |steps|
  {
    var longer := steps + [step];
    if steps == [] {
      assert longer[1..] == [];
    } else {
      assert longer[1..] == steps[1..] + [step];
      AppendStep(Next(start, steps[0], cfg), steps[1..], c, step, cfg);
    }
  }

  lemma OneStepOn(start: State, steps: seq<Step>, c: State, step: Step, cfg: Config)
    returns (more: seq<Step>, c': State)
    requires Reached(start, steps, c, cfg) && Enabled(c, step, cfg) && Timely(c, step, cfg)
    ensures c' == Next(c, step, cfg) && Reached(start, more, c', cfg)
  {
    AppendStep(start, steps, c, step, cfg);
    more, c' := steps + [step], Next(c, step, cfg);
  }

  /** A scheduler's pass stands here, between two workers. */
  function Standing(c: State, s: string, workers: Workers, view: Workers, expiresAt: int): State {
    c.(workers := workers, passes := c.passes[s := Viewing(expiresAt, view, None)])
  }

  /** The state while worker `w` is being made, in this status. */
  function Making(c: State, s: string, workers: Workers, view: Workers, expiresAt: int, w: Worker,
      status: WorkerStatus, started: bool): State {
    c.(workers := workers[w.workerId := w.(status := status)],
       passes := c.passes[s := Viewing(expiresAt, view, Some(Pending(w.workerId, started)))])
  }

  lemma Creates(c: State, s: string, workers: Workers, view: Workers, expiresAt: int, w: Worker, cfg: Config)
    requires MayMake(view, workers, w, cfg.maxActiveWorkers, cfg.maxWriteWorkersPerRepo)
    ensures var create, so := Create(s, w.(status := WorkerStatus.Created)), Standing(c, s, workers, view, expiresAt);
      && Enabled(so, create, cfg) && Timely(so, create, cfg)
      && Next(so, create, cfg) == Making(c, s, workers, view, expiresAt, w, WorkerStatus.Created, false)
  {
    var so := Standing(c, s, workers, view, expiresAt);
    assert so.passes[s := so.passes[s].(pending := Some(Pending(w.workerId, false)))] ==
           c.passes[s := Viewing(expiresAt, view, Some(Pending(w.workerId, false)))];
  }

  lemma Moves(c: State, s: string, workers: Workers, view: Workers, expiresAt: int, w: Worker, status: WorkerStatus,
      cfg: Config)
    ensures var making := Making(c, s, workers, view, expiresAt, w, status, false);
      && Enabled(making, MarkStarting(s), cfg) && Enabled(making, Activate(s), cfg)
      && Next(making, MarkStarting(s), cfg) == Making(c, s, workers, view, expiresAt, w, WorkerStatus.Starting, false)
      && Next(making, Activate(s), cfg) == Making(c, s, workers, view, expiresAt, w, WorkerStatus.Active, true)
  {
    var making := Making(c, s, workers, view, expiresAt, w, status, false);
    Overwritten(workers, w.workerId, w.(status := status), w.(status := WorkerStatus.Starting));
    Overwritten(workers, w.workerId, w.(status := status), w.(status := WorkerStatus.Active));
    Overwritten(c.passes, s, Viewing(expiresAt, view, Some(Pending(w.workerId, false))),
        Viewing(expiresAt, view, Some(Pending(w.workerId, true))));
  }

  /** The worker is left as it is, or has failed. */
  lemma LeavesOff(c: State, s: string, workers: Workers, view: Workers, expiresAt: int, w: Worker,
      status: WorkerStatus, cfg: Config)
    ensures var making := Making(c, s, workers, view, expiresAt, w, status, false);
      && Enabled(making, Abandon(s), cfg) && Enabled(making, FailStart(s), cfg)
      && Next(making, Abandon(s), cfg) == Standing(c, s, workers[w.workerId := w.(status := status)], view, expiresAt)
      && Next(making, FailStart(s), cfg) ==
           Standing(c, s, workers[w.workerId := w.(status := WorkerStatus.Failed)], view, expiresAt)
  {
    Overwritten(workers, w.workerId, w.(status := status), w.(status := WorkerStatus.Failed));
    Overwritten(c.passes, s, Viewing(expiresAt, view, Some(Pending(w.workerId, false))),
        Viewing(expiresAt, view, None));
  }

  lemma Counts(c: State, s: string, workers: Workers, view: Workers, expiresAt: int, w: Worker, cfg: Config)
    requires w.status == WorkerStatus.Active
    ensures var making := Making(c, s, workers, view, expiresAt, w, WorkerStatus.Active, true);
      && Enabled(making, CountStarted(s), cfg)
      && Next(making, CountStarted(s), cfg) ==
           Standing(c, s, workers[w.workerId := w], view[w.workerId := w], expiresAt)
  {
    assert w.(status := WorkerStatus.Active) == w;
    Overwritten(c.passes, s, Viewing(expiresAt, view, Some(Pending(w.workerId, true))),
        Viewing(expiresAt, view[w.workerId := w], None));
  }

  /** The steps by which a pass makes one worker, as it is left. */
  lemma OneWorker(start: State, steps: seq<Step>, c: State, s: string, workers: Workers, view: Workers, expiresAt: int,
      w: Worker, cfg: Config)
    returns (more: seq<Step>)
    requires Reached(start, steps, Standing(c, s, workers, view, expiresAt), cfg)
    requires MayMake(view, workers, w, cfg.maxActiveWorkers, cfg.maxWriteWorkersPerRepo)
    ensures Reached(start, more, Standing(c, s, workers[w.workerId := w],
        if w.status == WorkerStatus.Active then view[w.workerId := w] else view, expiresAt), cfg)
  {
    var c' := Standing(c, s, workers, view, expiresAt);
    Creates(c, s, workers, view, expiresAt, w, cfg);
    more, c' := OneStepOn(start, steps, c', Create(s, w.(status := WorkerStatus.Created)), cfg);
    if w.status.Created? {
      LeavesOff(c, s, workers, view, expiresAt, w, WorkerStatus.Created, cfg);
      more, c' := OneStepOn(start, more, c', Abandon(s), cfg);
    } else {
      Moves(c, s, workers, view, expiresAt, w, WorkerStatus.Created, cfg);
      more, c' := OneStepOn(start, more, c', MarkStarting(s), cfg);
      more := FromStarting(start, more, c, s, workers, view, expiresAt, w, cfg);
    }
  }

  lemma FromStarting(start: State, steps: seq<Step>, c: State, s: string, workers: Workers, view: Workers,
      expiresAt: int, w: Worker, cfg: Config)
    returns (more: seq<Step>)
    requires Reached(start, steps, Making(c, s, workers, view, expiresAt, w, WorkerStatus.Starting, false), cfg)
    requires w.status.Starting? || w.status.Active? || w.status.Failed?
    ensures Reached(start, more, Standing(c, s, workers[w.workerId := w],
        if w.status == WorkerStatus.Active then view[w.workerId := w] else view, expiresAt), cfg)
  {
    var c' := Making(c, s, workers, view, expiresAt, w, WorkerStatus.Starting, false);
    if w.status.Active? {
      Moves(c, s, workers, view, expiresAt, w, WorkerStatus.Starting, cfg);
      more, c' := OneStepOn(start, steps, c', Activate(s), cfg);
      Counts(c, s, workers, view, expiresAt, w, cfg);
      more, c' := OneStepOn(start, more, c', CountStarted(s), cfg);
    } else {
      LeavesOff(c, s, workers, view, expiresAt, w, WorkerStatus.Starting, cfg);
      more, c' := OneStepOn(start, steps, c', if w.status.Failed? then FailStart(s) else Abandon(s), cfg);
    }
  }

  lemma {:induction false} WorkersOneByOne(c: State, s: string, expiresAt: int, made: seq<Worker>, cfg: Config)
    returns (steps: seq<Step>)
    requires MadeInTurn(c.workers, made, cfg.maxActiveWorkers, cfg.maxWriteWorkersPerRepo)
    ensures Reached(Standing(c, s, c.workers, ViewOf(c.workers), expiresAt), steps,
        Standing(c, s, WithMade(c.workers, made), ViewWith(c.workers, made), expiresAt), cfg)
    decreases |made|
  {
    if made == [] {
      steps := [];
    } else {
      var front, last := made[..|made| - 1], made[|made| - 1];
      steps := WorkersOneByOne(c, s, expiresAt, front, cfg);
      steps := OneWorker(Standing(c, s, c.workers, ViewOf(c.workers), expiresAt), steps, c, s,
          WithMade(c.workers, front), ViewWith(c.workers, front), expiresAt, last, cfg);
    }
  }

  /**
   Whatever a pass of `dispatchLoop` makes of the workers, the steps of a pass in the cluster make of them, from the
   moment it has its list: the two models of a pass are one.
   */
  lemma PassIsARun(c: State, s: string, workers: Workers, cfg: Config) returns (steps: seq<Step>, view: Workers)
    requires s in c.passes && c.passes[s].Viewing? && c.passes[s].pending.None? && c.passes[s].view == ViewOf(c.workers)
    requires Scheduling.PassMakes(c.workers, workers, cfg.maxActiveWorkers, cfg.maxWriteWorkersPerRepo)
    ensures EnabledRun(c, steps, cfg) && TimelyRun(c, steps, cfg)
    ensures Run(c, steps, cfg) == c.(workers := workers, passes := c.passes[s := c.passes[s].(view := view)])
  {
    var expiresAt := c.passes[s].expiresAt;
    var made :| MadeInTurn(c.workers, made, cfg.maxActiveWorkers, cfg.maxWriteWorkersPerRepo)
        && WithMade(c.workers, made) == workers;
    assert Standing(c, s, c.workers, ViewOf(c.workers), expiresAt) == c;
    steps := WorkersOneByOne(c, s, expiresAt, made, cfg);
    view := ViewWith(c.workers, made);
  }
}
