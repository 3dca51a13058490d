/**
 A worker claimed by a remote executor (src/workers/workerManager.ts): claims, heartbeats and results, guarded by the
 fencing token the coordinator issued with the claim. A handler is one step.
 */
module RemoteResults {
  import opened Wrappers
  import opened StateMachine
  import opened JobLifecycle
  import C = Coordination
  import AssignmentFencing
  import Fencing

  datatype RemoteWorker = RemoteWorker(
    workerId: string, jobId: string, repoPath: string, status: WorkerStatus, executorId: Option<string>,
    token: Option<string>)

  /** A worker, the coordinator's assignment for it, and the result kept in memory. */
  datatype Remote = Remote(worker: RemoteWorker, assignment: Option<C.Assignment>, result: Option<Execution>)

  datatype Beat = SaysStarting | SaysActive | SaysFinishing

  /** What happens to the worker. `jobStatus` is what the handler reads; `collected` is what the result file held. */
  datatype Op =
    | Claim(executorId: string, jobStatus: JobStatus, now: int)
    | Heartbeat(executorId: string, token: Option<string>, says: Beat, jobStatus: JobStatus, now: int)
    | Result(executorId: string, token: Option<string>, status: Execution, collected: Option<Execution>, now: int)
    | Moved(next: WorkerStatus)
    | Coordinator(call: C.Op, now: int)

  datatype Outcome = Claimed | Beaten | Accepted | Ignored | TokenMismatch | IllegalTransition | JobRaised | Elsewhere

  /**
   With a control plane or without, the heartbeat ttl, and whether its coordinator bumps versions on unregistration.
   */
  datatype Setup = Setup(controlPlane: bool, ttlMs: int, bump: bool)

  function TargetOf(says: Beat): WorkerStatus {
    match says
    case SaysStarting => WorkerStatus.Starting
    case SaysActive => WorkerStatus.Active
    case SaysFinishing => WorkerStatus.Finishing
  }

  function WorkerStatusOf(e: Execution): WorkerStatus {
    match e
    case Completed => WorkerStatus.Finished
    case Canceled => WorkerStatus.Canceled
    case Failed => WorkerStatus.Failed
    case TimedOut => WorkerStatus.Failed
  }

  /** `#assertRemoteAssignmentFencingToken`: a stored token that is not empty must be the one received. */
  predicate Mismatch(w: RemoteWorker, received: Option<string>) {
    w.token.Some? && w.token.value != "" && received != w.token
  }

  function OrEmpty(token: Option<string>): string {
    if token.Some? then token.value else ""
  }

  function Upsert(w: RemoteWorker, executorId: string, heartbeatStatus: string, setup: Setup): C.Op {
    C.UpsertWorkerHeartbeat(w.workerId, w.jobId, executorId, w.repoPath, setup.ttlMs,
        map["heartbeatStatus" := heartbeatStatus])
  }

  function BeatName(says: Beat): string {
    match says
    case SaysStarting => "starting"
    case SaysActive => "active"
    case SaysFinishing => "finishing"
  }

  function AfterCall(r: Remote, now: int, call: C.Op, setup: Setup): Option<C.Assignment> {
    C.AssignmentAfter(r.assignment, r.worker.workerId, now, call, setup.bump)
  }

  function Claiming(r: Remote, op: Op, setup: Setup): (Remote, Outcome)
    requires op.Claim?
  {
    var w := r.worker.(status := if r.worker.status.Created? then WorkerStatus.Starting else r.worker.status,
                       executorId := Some(op.executorId));
    var next :=
      if setup.controlPlane then
        var assignment := AfterCall(r, op.now, Upsert(w, op.executorId, "claimed", setup), setup);
        r.(worker := w.(token := Some(assignment.value.fencingToken)), assignment := assignment)
      else r.(worker := w);
    (next, if CanAdvance(op.jobStatus, JobStatus.Dispatching) then Claimed else JobRaised)
  }

  /** The transition is checked only while the worker is not terminal. */
  function Beating(r: Remote, op: Op, setup: Setup): (Remote, Outcome)
    requires op.Heartbeat?
  {
    var target := TargetOf(op.says);
    if Mismatch(r.worker, op.token) then (r, TokenMismatch)
    else if r.worker.status != target && !TerminalWorker(r.worker.status) && !ValidWorker(r.worker.status, target)
    then (r, IllegalTransition)
    else
      var w := r.worker.(status := target, executorId := Some(op.executorId), token := Some(OrEmpty(op.token)));
      var assignment := if setup.controlPlane
          then AfterCall(r, op.now, Upsert(w, op.executorId, BeatName(op.says), setup), setup)
                        else r.assignment;
      (r.(worker := w, assignment := assignment),
       if target == WorkerStatus.Active && !CanAdvance(op.jobStatus, JobStatus.Running) then JobRaised else Beaten)
  }

  function Accepting(r: Remote, op: Op, setup: Setup): (Remote, Outcome)
    requires op.Result?
  {
    if Mismatch(r.worker, op.token) then (r, TokenMismatch)
    else if TerminalWorker(r.worker.status) then (r, Ignored)
    else if r.worker.status != WorkerStatus.Finishing && !ValidWorker(r.worker.status, WorkerStatus.Finishing)
    then (r, IllegalTransition)
    else
      var release := C.ReleaseWorkerHeartbeat(r.worker.workerId, op.executorId, Some("remote_result_published"));
      (Remote(r.worker.(status := WorkerStatusOf(op.status), executorId := Some(op.executorId),
                        token := Some(OrEmpty(op.token))),
              if setup.controlPlane then AfterCall(r, op.now, release, setup) else r.assignment,
              Some(if op.collected.Some? then op.collected.value else op.status)),
       Accepted)
  }

  /**
   `Moved` is any other handler's write, which follows the worker table; `Coordinator` is any other coordinator call.
   */
  function Step(r: Remote, op: Op, setup: Setup): (Remote, Outcome) {
    match op
    case Claim(_, _, _) => Claiming(r, op, setup)
    case Heartbeat(_, _, _, _, _) => Beating(r, op, setup)
    case Result(_, _, _, _, _) => Accepting(r, op, setup)
    case Moved(status) => (if ValidWorker(r.worker.status, status) then r.(worker := r.worker.(status := status))
        else r, Elsewhere)
    case Coordinator(call, now) => (r.(assignment := AfterCall(r, now, call, setup)), Elsewhere)
  }

  // ---- What the handlers mean ----

  /** An envelope counts if no token is stored, an empty one, or the one it carries. */
  predicate Counts(w: RemoteWorker, received: Option<string>) {
    w.token == None || w.token == Some("") || w.token == received
  }

  /** A claim starts a worker that was only created; it raises, after its writes, exactly if the job is closed. */
  predicate ClaimTakes(r: Remote, executorId: string, jobStatus: JobStatus, setup: Setup, r': Remote,
      outcome: Outcome) {
    && r'.worker.status == (if r.worker.status == WorkerStatus.Created then WorkerStatus.Starting
                            else r.worker.status)
    && r'.worker.executorId == Some(executorId) && r'.result == r.result
    && (setup.controlPlane ==> r'.assignment.Some? && r'.worker.token == Some(r'.assignment.value.fencingToken))
    && (!setup.controlPlane ==> r'.worker.token == r.worker.token && r'.assignment == r.assignment)
    && outcome == if TerminalJob(jobStatus) then JobRaised else Claimed
  }

  /**
   A heartbeat that does not carry the token is refused, and so is one that would take a worker under way back or over
   a status; neither leaves a trace. Any other leaves the worker in the status it names. Only an active one can raise
   afterwards, and does so exactly if the job is closed.
   */
  predicate BeatTakes(r: Remote, token: Option<string>, says: Beat, jobStatus: JobStatus, setup: Setup, r': Remote,
      outcome: Outcome) {
    var named := match says
      case SaysStarting => 1
      case SaysActive => 2
      case SaysFinishing => 3;
    var rank := WorkerRank(r.worker.status);
    var inOrder := TerminalWorker(r.worker.status) || rank == named || rank + 1 == named;
    && (outcome == TokenMismatch <==> !Counts(r.worker, token))
    && (outcome == IllegalTransition <==> Counts(r.worker, token) && !inOrder)
    && (outcome == JobRaised <==> Counts(r.worker, token) && inOrder && says.SaysActive? && TerminalJob(jobStatus))
    && outcome in {TokenMismatch, IllegalTransition, JobRaised, Beaten}
    && (outcome == TokenMismatch || outcome == IllegalTransition ==> r' == r)
    && (outcome == Beaten || outcome == JobRaised ==>
          && !TerminalWorker(r'.worker.status) && WorkerRank(r'.worker.status) == named && r'.result == r.result
          && Counts(r'.worker, token))
  }

  /**
   A result is refused without the token and before the worker was active, passed over once the worker has ended, and
   otherwise ends the worker: finished if it was completed, canceled if canceled, and failed if failed or timed out.
   */
  predicate ResultTakes(r: Remote, token: Option<string>, status: Execution, collected: Option<Execution>, r': Remote,
      outcome: Outcome) {
    && (outcome == TokenMismatch <==> !Counts(r.worker, token))
    && (outcome == Ignored <==> Counts(r.worker, token) && TerminalWorker(r.worker.status))
    && (outcome == IllegalTransition <==> Counts(r.worker, token) && WorkerRank(r.worker.status) <= 1)
    && (outcome == Accepted <==> Counts(r.worker, token) && 2 <= WorkerRank(r.worker.status) <= 3)
    && (outcome != Accepted ==> r' == r)
    && (outcome == Accepted ==>
          && (r'.worker.status == WorkerStatus.Finished <==> status == Execution.Completed)
          && (r'.worker.status == WorkerStatus.Canceled <==> status == Execution.Canceled)
          && (r'.worker.status == WorkerStatus.Failed <==> status == Execution.Failed || status == Execution.TimedOut)
          && (collected == None ==> r'.result == Some(status)) && (collected.Some? ==> r'.result == collected))
  }

  lemma ClaimMeans(r: Remote, executorId: string, jobStatus: JobStatus, now: int, setup: Setup)
    ensures var (r', outcome) := Step(r, Claim(executorId, jobStatus, now), setup);
      ClaimTakes(r, executorId, jobStatus, setup, r', outcome)
  {
  }

  lemma BeatMeans(r: Remote, executorId: string, token: Option<string>, says: Beat, jobStatus: JobStatus, now: int,
      setup: Setup)
    ensures var (r', outcome) := Step(r, Heartbeat(executorId, token, says, jobStatus, now), setup);
      BeatTakes(r, token, says, jobStatus, setup, r', outcome)
  {
  }

  /** With a control plane, a heartbeat that is let through is on record with the coordinator under its own name. */
  lemma BeatIsReported(r: Remote, executorId: string, token: Option<string>, says: Beat, jobStatus: JobStatus,
      now: int, setup: Setup)
    requires setup.controlPlane
    ensures var (r', outcome) := Step(r, Heartbeat(executorId, token, says, jobStatus, now), setup);
      outcome == Beaten || outcome == JobRaised ==>
        IsReported(r.worker, r'.assignment, executorId, now, setup,
            if says.SaysStarting? then "starting" else if says.SaysActive? then "active" else "finishing")
  {
  }

  /** The coordinator has this executor at work on the worker's job, under this name. */
  predicate IsReported(w: RemoteWorker, assignment: Option<C.Assignment>, executorId: string, now: int, setup: Setup,
      name: string) {
    && assignment.Some? && assignment.value.executorId == executorId && assignment.value.status == C.Active
    && assignment.value.workerId == w.workerId && assignment.value.jobId == w.jobId
    && assignment.value.repoPath == w.repoPath && assignment.value.expiresAt == now + setup.ttlMs
    && "heartbeatStatus" in assignment.value.metadata && assignment.value.metadata["heartbeatStatus"] == name
  }

  /** So is a claim. */
  lemma ClaimIsReported(r: Remote, executorId: string, jobStatus: JobStatus, now: int, setup: Setup)
    requires setup.controlPlane
    ensures var r' := Step(r, Claim(executorId, jobStatus, now), setup).0;
      IsReported(r.worker, r'.assignment, executorId, now, setup, "claimed")
  {
  }

  /** A result that is accepted releases the assignment of the executor that sends it, and no other's. */
  lemma ResultReleases(r: Remote, executorId: string, token: Option<string>, status: Execution,
      collected: Option<Execution>, now: int, setup: Setup)
    requires setup.controlPlane && r.assignment.Some?
    ensures var (r', outcome) := Step(r, Result(executorId, token, status, collected, now), setup);
      if outcome == Accepted && r.assignment.value.executorId == executorId
      then
        && r'.assignment.Some? && r'.assignment.value.status == C.Released
        && r'.assignment.value.version == r.assignment.value.version + 1
        && "releaseReason" in r'.assignment.value.metadata
        && r'.assignment.value.metadata["releaseReason"] == "remote_result_published"
      else r'.assignment == r.assignment
  {
  }

  lemma ResultMeans(r: Remote, executorId: string, token: Option<string>, status: Execution,
      collected: Option<Execution>, now: int, setup: Setup)
    ensures var (r', outcome) := Step(r, Result(executorId, token, status, collected, now), setup);
      ResultTakes(r, token, status, collected, r', outcome)
  {
  }

  // ---- The handlers ----

  class RemoteWorkerManager {
    const setup: Setup
    var workers: map<string, RemoteWorker>
    var assignments: map<string, C.Assignment>
    var workerResults: map<string, Execution>

    function At(workerId: string): Remote
      requires workerId in workers
      reads this
    {
      Remote(workers[workerId], C.Lookup(assignments, workerId), C.Lookup(workerResults, workerId))
    }

    ghost predicate Valid()
      reads this
    {
      forall w :: w in workers ==> workers[w].workerId == w
    }

    twostate predicate OthersUnchanged(workerId: string)
      reads this
    {
      && workerId in workers && workers == old(workers)[workerId := workers[workerId]]
      && (assignments == old(assignments)
          || (workerId in assignments && assignments == old(assignments)[workerId := assignments[workerId]]))
      && (workerResults == old(workerResults)
          || (workerId in workerResults && workerResults == old(workerResults)[workerId := workerResults[workerId]]))
    }

    constructor (setup: Setup)
      ensures Valid() && this.setup == setup && workers == map[] && assignments == map[] && workerResults == map[]
    {
      this.setup := setup;
      workers, assignments, workerResults := map[], map[], map[];
    }

    method UpsertHeartbeat(worker: RemoteWorker, executorId: string, heartbeatStatus: string, now: int)
      returns (token: string)
      modifies this`assignments
      ensures var next := C.NextAssignment(C.Lookup(old(assignments), worker.workerId),
              Upsert(worker, executorId, heartbeatStatus, setup), now);
        assignments == old(assignments)[worker.workerId := next] && token == next.fencingToken
    {
      var next := C.NextAssignment(C.Lookup(assignments, worker.workerId),
          Upsert(worker, executorId, heartbeatStatus, setup), now);
      assignments := assignments[worker.workerId := next];
      token := next.fencingToken;
    }

    method ClaimRemoteWorker(workerId: string, executorId: string, jobStatus: JobStatus, now: int)
      returns (outcome: Outcome)
      requires Valid() && workerId in workers
      modifies this
      ensures Valid() && OthersUnchanged(workerId)
      ensures (At(workerId), outcome) == Step(old(At(workerId)), Claim(executorId, jobStatus, now), setup)
      ensures ClaimTakes(old(At(workerId)), executorId, jobStatus, setup, At(workerId), outcome)
    {
      ClaimMeans(At(workerId), executorId, jobStatus, now, setup);
      var claimedWorker := workers[workerId];
      if claimedWorker.status.Created? {
        claimedWorker := claimedWorker.(status := WorkerStatus.Starting, executorId := Some(executorId));
      } else {
        claimedWorker := claimedWorker.(executorId := Some(executorId));
      }
      if setup.controlPlane {
        var token := UpsertHeartbeat(claimedWorker, executorId, "claimed", now);
        claimedWorker := claimedWorker.(token := Some(token));
      }
      workers := workers[workerId := claimedWorker];
      outcome := if CanAdvance(jobStatus, JobStatus.Dispatching) then Claimed else JobRaised;
    }

    method RecordRemoteHeartbeat(workerId: string, executorId: string, token: Option<string>, says: Beat,
        jobStatus: JobStatus, now: int)
      returns (outcome: Outcome)
      requires Valid() && workerId in workers
      modifies this
      ensures Valid() && OthersUnchanged(workerId)
      ensures (At(workerId), outcome) == Step(old(At(workerId)), Heartbeat(executorId, token, says, jobStatus, now),
              setup)
      ensures BeatTakes(old(At(workerId)), token, says, jobStatus, setup, At(workerId), outcome)
    {
      BeatMeans(At(workerId), executorId, token, says, jobStatus, now, setup);
      var worker := workers[workerId];
      if Mismatch(worker, token) {
        return TokenMismatch;
      }
      var targetStatus := TargetOf(says);
      if worker.status != targetStatus && !TerminalWorker(worker.status) {
        if !ValidWorker(worker.status, targetStatus) {
          return IllegalTransition;
        }
      }
      var updatedWorker := worker.(status := targetStatus, executorId := Some(executorId),
          token := Some(OrEmpty(token)));
      workers := workers[workerId := updatedWorker];
      if setup.controlPlane {
        var _ := UpsertHeartbeat(updatedWorker, executorId, BeatName(says), now);
      }
      var advances := targetStatus != WorkerStatus.Active || CanAdvance(jobStatus, JobStatus.Running);
      outcome := if advances then Beaten else JobRaised;
    }

    method AcceptRemoteResult(workerId: string, executorId: string, token: Option<string>, status: Execution,
                              collected: Option<Execution>, now: int) returns (outcome: Outcome)
      requires Valid() && workerId in workers
      modifies this
      ensures Valid() && OthersUnchanged(workerId)
      ensures (At(workerId), outcome) == Step(old(At(workerId)), Result(executorId, token, status, collected, now),
              setup)
      ensures ResultTakes(old(At(workerId)), token, status, collected, At(workerId), outcome)
    {
      ResultMeans(At(workerId), executorId, token, status, collected, now, setup);
      var worker := workers[workerId];
      if Mismatch(worker, token) {
        return TokenMismatch;
      }
      if TerminalWorker(worker.status) {
        return Ignored;
      }
      var finishingWorker := worker;
      if worker.status != WorkerStatus.Finishing {
        finishingWorker := worker.(status := WorkerStatus.Finishing, executorId := Some(executorId),
            token := Some(OrEmpty(token)));
        if !ValidWorker(worker.status, WorkerStatus.Finishing) {
          return IllegalTransition;
        }
        workers := workers[workerId := finishingWorker];
      }
      if setup.controlPlane {
        ReleaseHeartbeat(workerId, executorId, now);
      }
      workerResults := workerResults[workerId := if collected.Some? then collected.value else status];
      workers := workers[workerId :=
        finishingWorker.(status := WorkerStatusOf(status), executorId := Some(executorId),
            token := Some(OrEmpty(token)))];
      outcome := Accepted;
    }

    method ReleaseHeartbeat(workerId: string, executorId: string, now: int)
      modifies this`assignments
      ensures C.Lookup(assignments, workerId) ==
              C.AssignmentAfter(C.Lookup(old(assignments), workerId), workerId, now,
                                C.ReleaseWorkerHeartbeat(workerId, executorId, Some("remote_result_published")),
                                    setup.bump)
      ensures assignments == old(assignments)
              || (workerId in assignments && assignments == old(assignments)[workerId := assignments[workerId]])
    {
      if workerId in assignments && assignments[workerId].executorId == executorId {
        assignments := assignments[workerId :=
          C.ReleasedAssignment(assignments[workerId], now, Some("remote_result_published"), true)];
      }
    }
  }

  // ---- Whole runs of one worker ----

  function Run(r: Remote, ops: seq<Op>, setup: Setup): Remote
    decreases |ops|
  {
    if ops == [] then r else Run(Step(r, ops[0], setup).0, ops[1..], setup)
  }

  function CountIf(b: bool): nat {
    if b then 1 else 0
  }

  /** Results accepted along a run. */
  function Acceptances(r: Remote, ops: seq<Op>, setup: Setup): nat
    decreases |ops|
  {
    if ops == [] then 0
    else CountIf(Step(r, ops[0], setup).1 == Accepted) + Acceptances(Step(r, ops[0], setup).0, ops[1..], setup)
  }

  /** Terminal statuses written by other handlers along a run. */
  function OtherEndings(r: Remote, ops: seq<Op>, setup: Setup): nat
    decreases |ops|
  {
    if ops == [] then 0
    else CountIf(ops[0].Moved? && ValidWorker(r.worker.status, ops[0].next) && TerminalWorker(ops[0].next))
         + OtherEndings(Step(r, ops[0], setup).0, ops[1..], setup)
  }

  /** Heartbeats let through while the worker was terminal: each of them brings it back. */
  function Resurrections(r: Remote, ops: seq<Op>, setup: Setup): nat
    decreases |ops|
  {
    if ops == [] then 0
    else CountIf(ops[0].Heartbeat? && TerminalWorker(r.worker.status) && !Mismatch(r.worker, ops[0].token))
         + Resurrections(Step(r, ops[0], setup).0, ops[1..], setup)
  }

  /**
   The balance of endings over any run: results accepted and endings by others are exactly the resurrections, plus one
   if the worker ends terminal and did not begin so.
   */
  lemma {:induction false} EndingsBalance(r: Remote, ops: seq<Op>, setup: Setup)
    ensures Acceptances(r, ops, setup) + OtherEndings(r, ops, setup) + CountIf(TerminalWorker(r.worker.status)) ==
            Resurrections(r, ops, setup) + CountIf(TerminalWorker(Run(r, ops, setup).worker.status))
    decreases |ops|
  {
    if ops != [] {
      EndingsBalance(Step(r, ops[0], setup).0, ops[1..], setup);
    }
  }

  /**
   A worker under way takes at most one result as long as no heartbeat is processed after it has ended, and that one
   stays.
   */
  lemma AcceptedAtMostOnce(r: Remote, ops: seq<Op>, setup: Setup)
    requires Resurrections(r, ops, setup) == 0 && !TerminalWorker(r.worker.status)
    ensures Acceptances(r, ops, setup) + OtherEndings(r, ops, setup) ==
            CountIf(TerminalWorker(Run(r, ops, setup).worker.status))
  {
    EndingsBalance(r, ops, setup);
  }

  /** After an ending, and without resurrections, later results change neither status nor the kept result. */
  lemma {:induction false} EndedStaysEnded(r: Remote, ops: seq<Op>, setup: Setup)
    requires TerminalWorker(r.worker.status) && Resurrections(r, ops, setup) == 0
    ensures Run(r, ops, setup).worker.status == r.worker.status && Run(r, ops, setup).result == r.result
    ensures Acceptances(r, ops, setup) == 0
    decreases |ops|
  {
    if ops != [] {
      EndedStaysEnded(Step(r, ops[0], setup).0, ops[1..], setup);
    }
  }

  /** A heartbeat after the result brings the worker back and lets a second, different result in. */
  lemma SecondResultAfterHeartbeat(r: Remote, token: string, executorId: string, setup: Setup, now: int)
    requires r.worker.status == WorkerStatus.Active && r.worker.token == Some(token)
    ensures var first := Result(executorId, Some(token), Execution.Completed, None, now);
      var beat := Heartbeat(executorId, Some(token), SaysActive, JobStatus.Running, now);
      var second := Result(executorId, Some(token), Execution.Failed, None, now);
      Acceptances(r, [first, beat, second], setup) == 2
      && Run(r, [first], setup).worker.status == WorkerStatus.Finished
      && Run(r, [first, beat, second], setup).worker.status == WorkerStatus.Failed
  {
    var first := Result(executorId, Some(token), Execution.Completed, None, now);
    var beat := Heartbeat(executorId, Some(token), SaysActive, JobStatus.Running, now);
    var second := Result(executorId, Some(token), Execution.Failed, None, now);
    var ops := [first, beat, second];
    assert ops[1..] == [beat, second] && ops[1..][1..] == [second] && ops[1..][1..][1..] == [];
    var r1 := Step(r, first, setup).0;
    var r2 := Step(r1, beat, setup).0;
    assert [first][1..] == [];
    assert Acceptances(r2, [second], setup) == 1;
    assert Acceptances(r1, [beat, second], setup) == 1;
    assert Run(r2, [second], setup).worker.status == WorkerStatus.Failed;
    assert Run(r1, [beat, second], setup).worker.status == WorkerStatus.Failed;
  }

  /** The outcomes of a run, in order. */
  function Outcomes(r: Remote, ops: seq<Op>, setup: Setup): seq<Outcome>
    decreases |ops|
  {
    if ops == [] then [] else [Step(r, ops[0], setup).1] + Outcomes(Step(r, ops[0], setup).0, ops[1..], setup)
  }

  /**
   The life of a remote worker, whatever the clock says and wherever its job is on its way: claimed by an executor that
   sends its beats in turn, with the token issued or none if none is stored, it is starting, active, finishing, and
   finished with the result sent.
   */
  lemma RemoteLife(r: Remote, executorId: string, token: Option<string>, jobs: seq<JobStatus>, times: seq<int>,
      setup: Setup)
    requires r.worker.status == WorkerStatus.Created && |jobs| == 4 && |times| == 5
    requires forall s :: s in jobs ==> !TerminalJob(s)
    requires Counts(Step(r, Claim(executorId, jobs[0], times[0]), setup).0.worker, token)
    ensures
      var ops := [Claim(executorId, jobs[0], times[0]),
                  Heartbeat(executorId, token, SaysStarting, jobs[1], times[1]),
                  Heartbeat(executorId, token, SaysActive, jobs[2], times[2]),
                  Heartbeat(executorId, token, SaysFinishing, jobs[3], times[3]),
                  Result(executorId, token, Execution.Completed, None, times[4])];
      && Outcomes(r, ops, setup) == [Claimed, Beaten, Beaten, Beaten, Accepted]
      && Run(r, ops[..1], setup).worker.status == WorkerStatus.Starting
      && Run(r, ops[..2], setup).worker.status == WorkerStatus.Starting
      && Run(r, ops[..3], setup).worker.status == WorkerStatus.Active
      && Run(r, ops[..4], setup).worker.status == WorkerStatus.Finishing
      && Run(r, ops, setup).worker.status == WorkerStatus.Finished
      && Run(r, ops, setup).result == Some(Execution.Completed)
  {
    var a := Claim(executorId, jobs[0], times[0]);
    var b := Heartbeat(executorId, token, SaysStarting, jobs[1], times[1]);
    var c := Heartbeat(executorId, token, SaysActive, jobs[2], times[2]);
    var d := Heartbeat(executorId, token, SaysFinishing, jobs[3], times[3]);
    var e := Result(executorId, token, Execution.Completed, None, times[4]);
    assert jobs[0] in jobs && jobs[1] in jobs && jobs[2] in jobs && jobs[3] in jobs;
    var r1 := Step(r, a, setup).0;
    var r2 := Step(r1, b, setup).0;
    var r3 := Step(r2, c, setup).0;
    var r4 := Step(r3, d, setup).0;
    var r5 := Step(r4, e, setup).0;
    ClaimMeans(r, executorId, jobs[0], times[0], setup);
    BeatMeans(r1, executorId, token, SaysStarting, jobs[1], times[1], setup);
    BeatMeans(r2, executorId, token, SaysActive, jobs[2], times[2], setup);
    BeatMeans(r3, executorId, token, SaysFinishing, jobs[3], times[3], setup);
    ResultMeans(r4, executorId, token, Execution.Completed, None, times[4], setup);
    RunOfFive(r, a, b, c, d, e, setup);
  }

  lemma RunOfFive(r: Remote, a: Op, b: Op, c: Op, d: Op, e: Op, setup: Setup)
    ensures
      var ops := [a, b, c, d, e];
      var r1 := Step(r, a, setup).0;
      var r2 := Step(r1, b, setup).0;
      var r3 := Step(r2, c, setup).0;
      var r4 := Step(r3, d, setup).0;
      && Run(r, ops[..1], setup) == r1 && Run(r, ops[..2], setup) == r2 && Run(r, ops[..3], setup) == r3
      && Run(r, ops[..4], setup) == r4 && Run(r, ops, setup) == Step(r4, e, setup).0
      && Outcomes(r, ops, setup) == [Step(r, a, setup).1, Step(r1, b, setup).1, Step(r2, c, setup).1,
                                     Step(r3, d, setup).1, Step(r4, e, setup).1]
  {
    var ops := [a, b, c, d, e];
    assert ops[..0] + [a] == ops[..1] && ops[..1] + [b] == ops[..2] && ops[..2] + [c] == ops[..3];
    assert ops[..3] + [d] == ops[..4] && ops[..4] + [e] == ops;
    RunAppend(r, ops[..0], a, setup);
    RunAppend(r, ops[..1], b, setup);
    RunAppend(r, ops[..2], c, setup);
    RunAppend(r, ops[..3], d, setup);
    RunAppend(r, ops[..4], e, setup);
  }

  lemma {:induction false} RunAppend(r: Remote, ops: seq<Op>, op: Op, setup: Setup)
    ensures Run(r, ops + [op], setup) == Step(Run(r, ops, setup), op, setup).0
    ensures Outcomes(r, ops + [op], setup) == Outcomes(r, ops, setup) + [Step(Run(r, ops, setup), op, setup).1]
    decreases |ops|
  {
    if ops == [] {
      assert ([] + [op])[1..] == [];
    } else {
      assert (ops + [op])[1..] == ops[1..] + [op];
      RunAppend(Step(r, ops[0], setup).0, ops[1..], op, setup);
    }
  }

  // ---- Fencing ----

  /** Once a token is stored, envelopes that do not carry it change nothing, and it stays until the next claim. */
  lemma {:induction false} TokenFixedUntilClaim(r: Remote, ops: seq<Op>, setup: Setup)
    requires r.worker.token.Some? && r.worker.token.value != "" && forall op :: op in ops ==> !op.Claim?
    ensures Run(r, ops, setup).worker.token == r.worker.token
    decreases |ops|
  {
    if ops != [] {
      assert ops[0] in ops;
      TokenFixedUntilClaim(Step(r, ops[0], setup).0, ops[1..], setup);
    }
  }

  predicate Carries(op: Op, token: string) {
    (op.Heartbeat? || op.Result?) && op.token == Some(token)
  }

  /**
   Without a new claim, the worker is where its token's envelopes and the other handlers put it: all others may be
   dropped.
   */
  function WithoutOthers(ops: seq<Op>, token: string): seq<Op> {
    if ops == [] then []
    else
      var dropped := (ops[0].Heartbeat? || ops[0].Result?) && !Carries(ops[0], token);
      (if dropped then [] else [ops[0]]) + WithoutOthers(ops[1..], token)
  }

  lemma {:induction false} OnlyTokenHoldersCount(r: Remote, ops: seq<Op>, setup: Setup, token: string)
    requires r.worker.token == Some(token) && token != "" && forall op :: op in ops ==> !op.Claim?
    ensures Run(r, ops, setup) == Run(r, WithoutOthers(ops, token), setup)
    decreases |ops|
  {
    if ops != [] {
      assert ops[0] in ops;
      var next := Step(r, ops[0], setup).0;
      OnlyTokenHoldersCount(next, ops[1..], setup, token);
      var kept := WithoutOthers(ops, token);
      if (ops[0].Heartbeat? || ops[0].Result?) && !Carries(ops[0], token) {
        assert next == r && kept == WithoutOthers(ops[1..], token);
      } else {
        assert kept[1..] == WithoutOthers(ops[1..], token);
      }
    }
  }

  /** The stored token is one the coordinator issued for this worker, no later than the assignment's version. */
  ghost predicate TokenIssued(r: Remote) {
    && AssignmentFencing.TokenMatches(r.assignment, r.worker.workerId) && r.assignment.Some?
    && r.worker.token.Some? && r.worker.token.value != ""
    && 1 <= Fencing.TokenVersion(r.worker.token.value) <= r.assignment.value.version
  }

  lemma StepKeepsTokenIssued(r: Remote, op: Op, setup: Setup)
    requires TokenIssued(r) && setup.controlPlane
    ensures var r' := Step(r, op, setup).0;
      && TokenIssued(r') && r'.worker.workerId == r.worker.workerId
      && Fencing.TokenVersion(r.worker.token.value) <= Fencing.TokenVersion(r'.worker.token.value)
      && (op.Claim? ==> Fencing.TokenVersion(r.worker.token.value) < Fencing.TokenVersion(r'.worker.token.value))
  {
    var w := r.worker.workerId;
    match op {
      case Claim(executorId, _, now) =>
        var next := Step(r, op, setup).0.assignment;
        Fencing.AssignmentTokenVersion(w, executorId, next.value.version);
      case Coordinator(call, now) =>
        AssignmentFencing.AfterKeepsToken(r.assignment, w, now, call, setup.bump);
      case _ =>
    }
  }

  lemma {:induction false} TokensGrow(r: Remote, ops: seq<Op>, setup: Setup)
    requires TokenIssued(r) && setup.controlPlane
    ensures var r' := Run(r, ops, setup);
      && TokenIssued(r') && r'.worker.workerId == r.worker.workerId
      && Fencing.TokenVersion(r.worker.token.value) <= Fencing.TokenVersion(r'.worker.token.value)
      && ((exists op :: op in ops && op.Claim?) ==>
            Fencing.TokenVersion(r.worker.token.value) < Fencing.TokenVersion(r'.worker.token.value))
    decreases |ops|
  {
    if ops != [] {
      StepKeepsTokenIssued(r, ops[0], setup);
      TokensGrow(Step(r, ops[0], setup).0, ops[1..], setup);
      assert forall op :: op in ops ==> op == ops[0] || op in ops[1..];
    }
  }

  /** The first claim under a control plane stores an issued token. */
  lemma ClaimIssuesToken(r: Remote, op: Op, setup: Setup)
    requires setup.controlPlane && op.Claim? && AssignmentFencing.TokenMatches(r.assignment, r.worker.workerId)
    ensures TokenIssued(Step(r, op, setup).0)
  {
    var next := Step(r, op, setup).0.assignment;
    Fencing.AssignmentTokenVersion(r.worker.workerId, op.executorId, next.value.version);
  }

  /**
   A reclaim fences the former holder off for good: after any run that contains a claim, whatever else the coordinator
   did, an envelope with the former token changes nothing.
   */
  lemma ReclaimFencesOff(r: Remote, ops: seq<Op>, setup: Setup, late: Op)
    requires TokenIssued(r) && setup.controlPlane && exists op :: op in ops && op.Claim?
    requires Carries(late, r.worker.token.value)
    ensures Step(Run(r, ops, setup), late, setup) == (Run(r, ops, setup), TokenMismatch)
  {
    TokensGrow(r, ops, setup);
  }
}
