/**
 The list of active workers a pass keeps for itself, against the store: why counting its own list keeps the store
 within its caps although the pass never looks at the store's workers again.
 */
module DispatchView {
  import opened StateMachine
  import opened Models
  import opened Policies

  type Workers = map<WorkerId, Worker>

  ghost predicate Extends(before: Workers, after: Workers) {
    forall w :: w in before ==> w in after && after[w] == before[w]
  }

  /** Every worker that is active in the store is in the pass's list, as it is. */
  ghost predicate Covers(view: Workers, workers: Workers) {
    && Extends(view, workers)
    && (forall w :: w in view ==> Schedulable(view[w].status))
    && forall w :: w in workers && workers[w].status == WorkerStatus.Active ==> w in view
  }

  /** `getActiveWorkers`. */
  function ViewOf(workers: Workers): Workers {
    map w | w in workers && Schedulable(workers[w].status) :: workers[w]
  }

  ghost predicate WithinCaps(view: Workers, workers: Workers, start: Workers, maxActive: int, maxWriters: int) {
    && (ActiveIn(workers) == ActiveIn(start) || |view| <= maxActive)
    && forall repo :: ActiveWritersIn(workers, repo) == ActiveWritersIn(start, repo)
         || |WritersIn(view, repo)| <= maxWriters
  }

  /** The list is what the pass began with and what it has started since, and stays within the limit from then on. */
  ghost predicate Grown(view: Workers, start: Workers, maxActive: int) {
    && Extends(ViewOf(start), view)
    && (forall w :: w in view && w !in start ==> view[w].status == WorkerStatus.Active)
    && (view == ViewOf(start) || |view| <= maxActive)
  }

  /** The store's workers after a pass has made these, each as it was left. */
  function WithMade(start: Workers, made: seq<Worker>): Workers
    decreases |made|
  {
    if made == [] then start
    else
      var last := made[|made| - 1];
      WithMade(start, made[..|made| - 1])[last.workerId := last]
  }

  /** The pass's list after it: those started have been added. */
  function ViewWith(start: Workers, made: seq<Worker>): Workers
    decreases |made|
  {
    if made == [] then ViewOf(start)
    else
      var last := made[|made| - 1];
      var before := ViewWith(start, made[..|made| - 1]);
      if last.status == WorkerStatus.Active then before[last.workerId := last] else before
  }

  /** How a pass may leave a worker it has made. */
  predicate LeftAs(status: WorkerStatus) {
    status.Created? || status.Starting? || status.Active? || status.Failed?
  }

  /** The pass makes a worker: it has a new id and, by the list, there is room for it. */
  ghost predicate MayMake(view: Workers, workers: Workers, w: Worker, maxActive: int, maxWriters: int) {
    && w.workerId !in workers && w.workerId !in view && CanDispatch(|view|, maxActive)
    && (w.writeCapable ==> |WritersIn(view, w.repoPath)| < maxWriters)
    && LeftAs(w.status)
  }

  ghost predicate MadeInTurn(start: Workers, made: seq<Worker>, maxActive: int, maxWriters: int)
    decreases |made|
  {
    made != [] ==>
      var front, last := made[..|made| - 1], made[|made| - 1];
      && MadeInTurn(start, front, maxActive, maxWriters)
      && MayMake(ViewWith(start, front), WithMade(start, front), last, maxActive, maxWriters)
  }

  /** Store and list are what they were at the start with some workers made one after another. */
  ghost predicate MadeSince(view: Workers, workers: Workers, start: Workers, maxActive: int, maxWriters: int) {
    exists made ::
      && MadeInTurn(start, made, maxActive, maxWriters)
      && WithMade(start, made) == workers && ViewWith(start, made) == view
  }

  lemma MadeAppend(start: Workers, made: seq<Worker>, w: Worker, maxActive: int, maxWriters: int)
    ensures WithMade(start, made + [w]) == WithMade(start, made)[w.workerId := w]
    ensures ViewWith(start, made + [w]) ==
            if w.status == WorkerStatus.Active then ViewWith(start, made)[w.workerId := w] else ViewWith(start, made)
    ensures MadeInTurn(start, made + [w], maxActive, maxWriters) <==>
            MadeInTurn(start, made, maxActive, maxWriters)
            && MayMake(ViewWith(start, made), WithMade(start, made), w, maxActive, maxWriters)
  {
    var more := made + [w];
    assert more[..|more| - 1] == made;
  }

  lemma OneMoreMade(view: Workers, workers: Workers, start: Workers, maxActive: int, maxWriters: int, w: Worker)
    requires MadeSince(view, workers, start, maxActive, maxWriters) && MayMake(view, workers, w, maxActive, maxWriters)
    ensures MadeSince(if w.status == WorkerStatus.Active then view[w.workerId := w] else view, workers[w.workerId := w],
        start, maxActive, maxWriters)
  {
    var made :| MadeInTurn(start, made, maxActive, maxWriters) && WithMade(start, made) == workers
        && ViewWith(start, made) == view;
    MadeAppend(start, made, w, maxActive, maxWriters);
  }

  /** How the list of a pass that began with the store's workers `start` stands to the store's. */
  ghost predicate Counted(view: Workers, workers: Workers, start: Workers, maxActive: int, maxWriters: int) {
    Covers(view, workers) && Extends(start, workers) && WithinCaps(view, workers, start, maxActive, maxWriters)
    && Grown(view, start, maxActive)
  }

  /** What a pass that began with the store's workers `start` keeps true. */
  ghost predicate PassInvariant(view: Workers, workers: Workers, start: Workers, maxActive: int, maxWriters: int) {
    Counted(view, workers, start, maxActive, maxWriters) && MadeSince(view, workers, start, maxActive, maxWriters)
  }

  lemma WritersAfterStart(view: Workers, workers: Workers, start: Workers, maxWriters: int, w: Worker, repo: string)
    requires w.workerId !in workers && w.workerId !in view && w.status == WorkerStatus.Active
    requires w.writeCapable ==> |WritersIn(view, w.repoPath)| < maxWriters
    requires ActiveWritersIn(workers, repo) == ActiveWritersIn(start, repo) || |WritersIn(view, repo)| <= maxWriters
    ensures var view', workers' := view[w.workerId := w], workers[w.workerId := w];
      ActiveWritersIn(workers', repo) == ActiveWritersIn(start, repo) || |WritersIn(view', repo)| <= maxWriters
  {
    var view', workers' := view[w.workerId := w], workers[w.workerId := w];
    if Writing(w, repo) {
      assert WritersIn(view', repo) == WritersIn(view, repo) + {w.workerId};
    } else {
      assert WritersIn(view', repo) == WritersIn(view, repo);
      assert ActiveWritersIn(workers', repo) == ActiveWritersIn(workers, repo);
    }
  }

  lemma StartedIsCounted(view: Workers, workers: Workers, start: Workers, maxActive: int, maxWriters: int, w: Worker)
    requires Counted(view, workers, start, maxActive, maxWriters) && w.workerId !in workers
    requires w.status == WorkerStatus.Active && CanDispatch(|view|, maxActive)
    requires w.writeCapable ==> |WritersIn(view, w.repoPath)| < maxWriters
    ensures w.workerId !in view && Extends(view, view[w.workerId := w]) && Extends(workers, workers[w.workerId := w])
    ensures Counted(view[w.workerId := w], workers[w.workerId := w], start, maxActive, maxWriters)
  {
    var view', workers' := view[w.workerId := w], workers[w.workerId := w];
    forall repo
      ensures ActiveWritersIn(workers', repo) == ActiveWritersIn(start, repo) || |WritersIn(view', repo)| <= maxWriters
    {
      WritersAfterStart(view, workers, start, maxWriters, w, repo);
    }
  }

  /** A worker started within the caps the pass checks, and counted in its list, keeps the invariant. */
  lemma WorkerStarted(view: Workers, workers: Workers, start: Workers, maxActive: int, maxWriters: int, w: Worker)
    requires PassInvariant(view, workers, start, maxActive, maxWriters)
    requires w.workerId !in workers && w.status == WorkerStatus.Active && CanDispatch(|view|, maxActive)
    requires w.writeCapable ==> |WritersIn(view, w.repoPath)| < maxWriters
    ensures w.workerId !in view && Extends(view, view[w.workerId := w]) && Extends(workers, workers[w.workerId := w])
    ensures PassInvariant(view[w.workerId := w], workers[w.workerId := w], start, maxActive, maxWriters)
  {
    StartedIsCounted(view, workers, start, maxActive, maxWriters, w);
    OneMoreMade(view, workers, start, maxActive, maxWriters, w);
  }

  lemma IdleIsCounted(view: Workers, workers: Workers, start: Workers, maxActive: int, maxWriters: int, w: Worker)
    requires Counted(view, workers, start, maxActive, maxWriters)
    requires w.workerId !in workers && w.status != WorkerStatus.Active
    ensures Counted(view, workers[w.workerId := w], start, maxActive, maxWriters)
  {
    var workers' := workers[w.workerId := w];
    assert ActiveIn(workers') == ActiveIn(workers);
    forall repo ensures ActiveWritersIn(workers', repo) == ActiveWritersIn(workers, repo) {}
  }

  lemma WorkerLeftIdle(view: Workers, workers: Workers, start: Workers, maxActive: int, maxWriters: int, w: Worker)
    requires PassInvariant(view, workers, start, maxActive, maxWriters)
    requires MayMake(view, workers, w, maxActive, maxWriters) && w.status != WorkerStatus.Active
    ensures Extends(workers, workers[w.workerId := w])
    ensures PassInvariant(view, workers[w.workerId := w], start, maxActive, maxWriters)
  {
    IdleIsCounted(view, workers, start, maxActive, maxWriters, w);
    OneMoreMade(view, workers, start, maxActive, maxWriters, w);
  }

  /** What the pass leaves in the store: each cap holds, or the pass added nothing to what it found. */
  lemma CapsHold(view: Workers, workers: Workers, start: Workers, maxActive: int, maxWriters: int, repo: string)
    requires PassInvariant(view, workers, start, maxActive, maxWriters)
    ensures |ActiveIn(workers)| <= maxActive || ActiveIn(workers) == ActiveIn(start)
    ensures |ActiveWritersIn(workers, repo)| <= maxWriters
            || ActiveWritersIn(workers, repo) == ActiveWritersIn(start, repo)
  {
    SubsetSize(ActiveIn(workers), view.Keys);
    SubsetSize(ActiveWritersIn(workers, repo), WritersIn(view, repo));
  }

  /** The workers of a job after one more worker. */
  lemma SchedulableAfterAdding(workers: Workers, w: Worker, jobId: JobId)
    requires w.workerId !in workers
    ensures |SchedulableOf(workers[w.workerId := w], jobId)| ==
            |SchedulableOf(workers, jobId)| + (if w.jobId == jobId && Schedulable(w.status) then 1 else 0)
  {
    var workers' := workers[w.workerId := w];
    if w.jobId == jobId && Schedulable(w.status) {
      assert SchedulableOf(workers', jobId) == SchedulableOf(workers, jobId) + {w.workerId};
    } else {
      assert SchedulableOf(workers', jobId) == SchedulableOf(workers, jobId);
    }
  }

  /** A worker made when there is room for it, however it is left. */
  lemma WorkerMade(view: Workers, workers: Workers, start: Workers, maxActive: int, maxWriters: int, w: Worker)
    requires PassInvariant(view, workers, start, maxActive, maxWriters)
    requires MayMake(view, workers, w, maxActive, maxWriters)
    ensures var view' := if w.status == WorkerStatus.Active then view[w.workerId := w] else view;
      && PassInvariant(view', workers[w.workerId := w], start, maxActive, maxWriters) && Extends(view, view')
      && |view'| == |view| + (if w.status == WorkerStatus.Active then 1 else 0)
    ensures Extends(workers, workers[w.workerId := w])
  {
    if w.status == WorkerStatus.Active {
      WorkerStarted(view, workers, start, maxActive, maxWriters, w);
    } else {
      WorkerLeftIdle(view, workers, start, maxActive, maxWriters, w);
    }
  }

  lemma OneMoreSchedulable(workers: Workers, w: Worker)
    requires w.workerId !in workers && Schedulable(w.status)
    ensures |SchedulableIn(workers[w.workerId := w])| == |SchedulableIn(workers)| + 1
  {
    assert SchedulableIn(workers[w.workerId := w]) == SchedulableIn(workers) + {w.workerId};
  }

  lemma InitialView(workers: Workers, maxActive: int, maxWriters: int)
    ensures PassInvariant(ViewOf(workers), workers, workers, maxActive, maxWriters)
    ensures |ViewOf(workers)| == |SchedulableIn(workers)|
  {
    assert ViewOf(workers).Keys == SchedulableIn(workers);
    var made: seq<Worker> := [];
    assert MadeInTurn(workers, made, maxActive, maxWriters) && WithMade(workers, made) == workers
        && ViewWith(workers, made) == ViewOf(workers);
  }

  /** So the next pass, whose list was full, finds one place free. */
  lemma FinishingFreesNextPass(workers: Workers, w: WorkerId, maxActive: int)
    requires w in workers && workers[w].status == WorkerStatus.Active
    ensures var after := workers[w := workers[w].(status := WorkerStatus.Finishing)];
      && w !in ViewOf(after) && |ViewOf(after)| == |ViewOf(workers)| - 1
      && (|ViewOf(workers)| == maxActive ==> CanDispatch(|ViewOf(after)|, maxActive))
  {
    var after := workers[w := workers[w].(status := WorkerStatus.Finishing)];
    FinishingFreesPlace(workers, w);
    InitialView(workers, maxActive, 0);
    InitialView(after, maxActive, 0);
  }

  /** What the list counts is there in the store. */
  lemma ViewIsInStore(view: Workers, workers: Workers, repo: string)
    requires Covers(view, workers)
    ensures |view| <= |SchedulableIn(workers)| && |WritersIn(view, repo)| <= |WritersIn(workers, repo)|
  {
    SubsetSize(view.Keys, SchedulableIn(workers));
    SubsetSize(WritersIn(view, repo), WritersIn(workers, repo));
  }

  /** The workers a pass made and left neither active nor ended: nobody counts them. */
  function LeftIdle(start: Workers, workers: Workers): set<WorkerId> {
    set w | w in workers && w !in start && (workers[w].status.Created? || workers[w].status.Starting?)
  }

  lemma ListedOrIdle(view: Workers, workers: Workers, start: Workers, maxActive: int, maxWriters: int)
    requires PassInvariant(view, workers, start, maxActive, maxWriters)
    ensures SchedulableIn(workers) == view.Keys + LeftIdle(start, workers) && view.Keys !! LeftIdle(start, workers)
  {
    forall w | w in SchedulableIn(workers) && w !in view ensures w in LeftIdle(start, workers) {
      assert w in start ==> w in ViewOf(start);
    }
  }

  /** Schedulable workers are those in the list and those left idle: the limit is exceeded by the latter alone. */
  lemma SchedulableAfterPass(view: Workers, workers: Workers, start: Workers, maxActive: int, maxWriters: int)
    requires PassInvariant(view, workers, start, maxActive, maxWriters)
    ensures SchedulableIn(workers) == view.Keys + LeftIdle(start, workers) && view.Keys !! LeftIdle(start, workers)
    ensures var found := |SchedulableIn(start)|;
      |SchedulableIn(workers)| <= (if found > maxActive then found else maxActive) + |LeftIdle(start, workers)|
  {
    ListedOrIdle(view, workers, start, maxActive, maxWriters);
    assert ViewOf(start).Keys == SchedulableIn(start);
    assert |view.Keys + LeftIdle(start, workers)| == |view.Keys| + |LeftIdle(start, workers)|;
  }
}
