/** The two coordinator classes driven through the same run. */
module CoordinatorRefinement {
  import opened Wrappers
  import opened Coordination
  import opened CoordinatorSimulation
  import InMemoryCoordinator
  import SqliteCoordinator

  method CallInMemory(coordinator: InMemoryCoordinator.InMemoryControlPlaneCoordinator, call: Call)
    returns (reply: Reply)
    modifies coordinator
    ensures (coordinator.Contents(), reply) == Step(old(coordinator.Contents()), call.now, call.op, false)
  {
    match call.op
    case RegisterExecutor(id, registration) =>
      var record := coordinator.RegisterExecutor(id, registration, call.now);
      reply := ExecutorReply(Some(record));
    case HeartbeatExecutor(id) =>
      var record := coordinator.HeartbeatExecutor(id, call.now);
      reply := ExecutorReply(record);
    case UnregisterExecutor(id) =>
      var deleted := coordinator.UnregisterExecutor(id, call.now);
      reply := BoolReply(deleted);
    case GetExecutor(id, staleAfterMs) =>
      var snapshot := coordinator.GetExecutor(id, staleAfterMs, call.now);
      reply := ExecutorSnapshotReply(snapshot);
    case ListExecutors(staleAfterMs, includeStale) =>
      var listed := coordinator.ListExecutors(staleAfterMs, includeStale, call.now);
      reply := ExecutorsReply(listed);
    case AcquireLease(key, owner, ttlMs) =>
      var lease := coordinator.AcquireLease(key, owner, ttlMs, call.now);
      reply := LeaseReply(lease);
    case ReleaseLease(key, owner) =>
      var released := coordinator.ReleaseLease(key, owner, call.now);
      reply := BoolReply(released);
    case GetLease(key) =>
      var lease := coordinator.GetLease(key, call.now);
      reply := LeaseReply(lease);
    case UpsertWorkerHeartbeat(w, jobId, executor, repoPath, ttlMs, metadata) =>
      var assignment := coordinator.UpsertWorkerHeartbeat(w, jobId, executor, repoPath, ttlMs, metadata, call.now);
      reply := AssignmentReply(Some(assignment));
    case ReleaseWorkerHeartbeat(w, executor, reason) =>
      var assignment := coordinator.ReleaseWorkerHeartbeat(w, executor, reason, call.now);
      reply := AssignmentReply(assignment);
    case GetWorkerAssignment(w) =>
      var snapshot := coordinator.GetWorkerAssignment(w, call.now);
      reply := AssignmentSnapshotReply(snapshot);
    case ListWorkerAssignments(includeReleased, includeStale) =>
      var listed := coordinator.ListWorkerAssignments(includeReleased, includeStale, call.now);
      reply := AssignmentsReply(listed);
  }

  method CallSqlite(coordinator: SqliteCoordinator.SqliteControlPlaneCoordinator, call: Call) returns (reply: Reply)
    modifies coordinator
    ensures (coordinator.Contents(), reply) == Step(old(coordinator.Contents()), call.now, call.op, true)
  {
    match call.op
    case RegisterExecutor(id, registration) =>
      var record := coordinator.RegisterExecutor(id, registration, call.now);
      reply := ExecutorReply(Some(record));
    case HeartbeatExecutor(id) =>
      var record := coordinator.HeartbeatExecutor(id, call.now);
      reply := ExecutorReply(record);
    case UnregisterExecutor(id) =>
      var deleted := coordinator.UnregisterExecutor(id, call.now);
      reply := BoolReply(deleted);
    case GetExecutor(id, staleAfterMs) =>
      var snapshot := coordinator.GetExecutor(id, staleAfterMs, call.now);
      reply := ExecutorSnapshotReply(snapshot);
    case ListExecutors(staleAfterMs, includeStale) =>
      var listed := coordinator.ListExecutors(staleAfterMs, includeStale, call.now);
      reply := ExecutorsReply(listed);
    case AcquireLease(key, owner, ttlMs) =>
      var lease := coordinator.AcquireLease(key, owner, ttlMs, call.now);
      reply := LeaseReply(lease);
    case ReleaseLease(key, owner) =>
      var released := coordinator.ReleaseLease(key, owner, call.now);
      reply := BoolReply(released);
    case GetLease(key) =>
      var lease := coordinator.GetLease(key, call.now);
      reply := LeaseReply(lease);
    case UpsertWorkerHeartbeat(w, jobId, executor, repoPath, ttlMs, metadata) =>
      var assignment := coordinator.UpsertWorkerHeartbeat(w, jobId, executor, repoPath, ttlMs, metadata, call.now);
      reply := AssignmentReply(Some(assignment));
    case ReleaseWorkerHeartbeat(w, executor, reason) =>
      var assignment := coordinator.ReleaseWorkerHeartbeat(w, executor, reason, call.now);
      reply := AssignmentReply(assignment);
    case GetWorkerAssignment(w) =>
      var snapshot := coordinator.GetWorkerAssignment(w, call.now);
      reply := AssignmentSnapshotReply(snapshot);
    case ListWorkerAssignments(includeReleased, includeStale) =>
      var listed := coordinator.ListWorkerAssignments(includeReleased, includeStale, call.now);
      reply := AssignmentsReply(listed);
  }

  lemma {:induction false} RunAppend(s: State, calls: seq<Call>, call: Call, bump: bool)
    ensures Run(s, calls + [call], bump) == Step(Run(s, calls, bump), call.now, call.op, bump).0
    ensures Replies(s, calls + [call], bump) ==
            Replies(s, calls, bump) + [Step(Run(s, calls, bump), call.now, call.op, bump).1]
    decreases |calls|
  {
    if calls == [] {
      assert calls + [call] == [call] && [call][1..] == [];
    } else {
      assert (calls + [call])[1..] == calls[1..] + [call];
      RunAppend(Step(s, calls[0].now, calls[0].op, bump).0, calls[1..], call, bump);
    }
  }

  /** A run one call longer. */
  lemma RunNext(calls: seq<Call>, i: nat, bump: bool)
    requires i < |calls|
    ensures Run(INITIAL, calls[..i + 1], bump) ==
            Step(Run(INITIAL, calls[..i], bump), calls[i].now, calls[i].op, bump).0
    ensures Replies(INITIAL, calls[..i + 1], bump) ==
            Replies(INITIAL, calls[..i], bump)
            + [Step(Run(INITIAL, calls[..i], bump), calls[i].now, calls[i].op, bump).1]
  {
    RunAppend(INITIAL, calls[..i], calls[i], bump);
    assert calls[..i + 1] == calls[..i] + [calls[i]];
  }

  /** Every run of calls on two fresh coordinators: the replies agree one by one, up to assignment version and token. */
  method RunBoth(calls: seq<Call>) returns (inMemory: seq<Reply>, sqlite: seq<Reply>)
    ensures inMemory == Replies(INITIAL, calls, false) && sqlite == Replies(INITIAL, calls, true)
    ensures |inMemory| == |sqlite| == |calls|
    ensures forall i :: 0 <= i < |calls| ==> SameReply(inMemory[i], sqlite[i])
  {
    var first := new InMemoryCoordinator.InMemoryControlPlaneCoordinator();
    var second := new SqliteCoordinator.SqliteControlPlaneCoordinator();
    inMemory, sqlite := [], [];
    for i := 0 to |calls|
      invariant first.Contents() == Run(INITIAL, calls[..i], false) && inMemory == Replies(INITIAL, calls[..i], false)
      invariant second.Contents() == Run(INITIAL, calls[..i], true) && sqlite == Replies(INITIAL, calls[..i], true)
    {
      var reply := CallInMemory(first, calls[i]);
      var reply' := CallSqlite(second, calls[i]);
      RunNext(calls, i, false);
      RunNext(calls, i, true);
      inMemory, sqlite := inMemory + [reply], sqlite + [reply'];
    }
    assert calls[..|calls|] == calls;
    CoordinatorsAgree(calls);
  }
}
