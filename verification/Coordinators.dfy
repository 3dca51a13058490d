/** `InMemoryControlPlaneCoordinator`: three maps, updated in place. */
module InMemoryCoordinator {
  import opened Wrappers
  import opened Coordination
  import Fencing

  class InMemoryControlPlaneCoordinator {
    var executors: map<string, Executor>
    var leases: map<string, Lease>
    var workerAssignments: map<string, Assignment>

    function Contents(): State
      reads this
    {
      State(executors, leases, workerAssignments)
    }

    constructor ()
      ensures Contents() == INITIAL
    {
      executors, leases, workerAssignments := map[], map[], map[];
    }

    method RegisterExecutor(executorId: string, registration: Registration, now: int) returns (record: Executor)
      modifies this
      ensures (Contents(), ExecutorReply(Some(record))) ==
              Step(old(Contents()), now, Op.RegisterExecutor(executorId, registration), false)
    {
      var generation, registeredAt := 1, now;
      if executorId in executors {
        var existing := executors[executorId];
        generation, registeredAt := existing.generation + 1, existing.registeredAt;
      }
      record := Executor(executorId, Normalized(registration), generation,
                         Fencing.ExecutorToken(executorId, generation), registeredAt, now);
      executors := executors[executorId := record];
    }

    method HeartbeatExecutor(executorId: string, now: int) returns (record: Option<Executor>)
      modifies this
      ensures (Contents(), ExecutorReply(record)) == Step(old(Contents()), now, Op.HeartbeatExecutor(executorId), false)
    {
      if executorId !in executors {
        return None;
      }
      var updated := executors[executorId].(heartbeatAt := now);
      executors := executors[executorId := updated];
      record := Some(updated);
    }

    method UnregisterExecutor(executorId: string, now: int) returns (deleted: bool)
      modifies this
      ensures (Contents(), BoolReply(deleted)) == Step(old(Contents()), now, Op.UnregisterExecutor(executorId), false)
    {
      deleted := executorId in executors;
      executors := executors - {executorId};
      DeleteLeasesOf(executorId);
      ReleaseAssignmentsOf(executorId, now);
    }

    method DeleteLeasesOf(executorId: string)
      modifies this`leases
      ensures leases == map k | k in old(leases) && old(leases)[k].ownerId != executorId :: old(leases)[k]
    {
      var keys := leases.Keys;
      while keys != {}
        invariant keys <= old(leases).Keys
        invariant leases == map k | k in old(leases)
                  && (k in keys || old(leases)[k].ownerId != executorId) :: old(leases)[k]
        decreases |keys|
      {
        var key :| key in keys;
        keys := keys - {key};
        if leases[key].ownerId == executorId {
          leases := leases - {key};
        }
      }
    }

    method ReleaseAssignmentsOf(executorId: string, now: int)
      modifies this`workerAssignments
      ensures workerAssignments == Unregistered(old(Contents()), executorId, now, false).assignments
    {
      var ids := workerAssignments.Keys;
      NothingReleased(workerAssignments, workerAssignments.Keys - ids, executorId, now, false);
      while ids != {}
        invariant ids <= old(workerAssignments).Keys
        invariant workerAssignments ==
          ReleasedFor(old(workerAssignments), old(workerAssignments).Keys - ids, executorId, now, false)
        decreases |ids|
      {
        var workerId :| workerId in ids;
        ghost var done := old(workerAssignments).Keys - ids;
        ids := ids - {workerId};
        ReleaseOneMore(old(workerAssignments), done, workerId, executorId, now, false);
        assert old(workerAssignments).Keys - ids == done + {workerId};
        var assignment := workerAssignments[workerId];
        if assignment.executorId != executorId || assignment.status == Released {
          continue;
        }
        workerAssignments := workerAssignments[workerId := assignment.(
          status := Released, releasedAt := Some(now),
          metadata := assignment.metadata["releaseReason" := "executor_unregistered"])];
      }
      assert old(workerAssignments).Keys - ids == old(workerAssignments).Keys;
    }

    method AcquireLease(leaseKey: string, ownerId: string, ttlMs: int, now: int) returns (lease: Option<Lease>)
      modifies this
      ensures (Contents(), LeaseReply(lease)) ==
              Step(old(Contents()), now, Op.AcquireLease(leaseKey, ownerId, ttlMs), false)
      ensures lease.Some? <==> leaseKey !in old(leases) || old(leases)[leaseKey].ownerId == ownerId
                               || now >= old(leases)[leaseKey].expiresAt
      ensures lease.Some? ==>
        && leases == old(leases)[leaseKey := lease.value] && lease.value.leaseKey == leaseKey
        && lease.value.ownerId == ownerId && lease.value.heartbeatAt == now && lease.value.expiresAt == now + ttlMs
    {
      var nextVersion, acquiredAt := 1, now;
      if leaseKey in leases {
        var existing := leases[leaseKey];
        if existing.ownerId != ownerId {
          if !Expired(existing.expiresAt, now) {
            return None;
          }
        } else {
          nextVersion, acquiredAt := existing.version + 1, existing.acquiredAt;
        }
      }
      var record := Lease(leaseKey, ownerId, Fencing.LeaseToken(leaseKey, ownerId, nextVersion), acquiredAt, now,
                          now + ttlMs, nextVersion);
      leases := leases[leaseKey := record];
      lease := Some(record);
    }

    method ReleaseLease(leaseKey: string, ownerId: string, ghost now: int) returns (released: bool)
      modifies this
      ensures (Contents(), BoolReply(released)) == Step(old(Contents()), now, Op.ReleaseLease(leaseKey, ownerId), false)
    {
      if leaseKey !in leases || leases[leaseKey].ownerId != ownerId {
        return false;
      }
      leases := leases - {leaseKey};
      released := true;
    }

    method GetLease(leaseKey: string, now: int) returns (lease: Option<Lease>)
      modifies this
      ensures (Contents(), LeaseReply(lease)) == Step(old(Contents()), now, Op.GetLease(leaseKey), false)
    {
      if leaseKey !in leases {
        return None;
      }
      if Expired(leases[leaseKey].expiresAt, now) {
        leases := leases - {leaseKey};
        return None;
      }
      lease := Some(leases[leaseKey]);
    }

    method UpsertWorkerHeartbeat(workerId: string, jobId: string, executorId: string, repoPath: string, ttlMs: int,
                                 metadata: map<string, string>, now: int)
      returns (assignment: Assignment)
      modifies this
      ensures (Contents(), AssignmentReply(Some(assignment))) ==
        Step(old(Contents()), now, Op.UpsertWorkerHeartbeat(workerId, jobId, executorId, repoPath, ttlMs, metadata),
            false)
    {
      var version, assignedAt, merged := 1, now, metadata;
      if workerId in workerAssignments {
        var current := workerAssignments[workerId];
        version := current.version + 1;
        merged := current.metadata + metadata;
        if current.status == Active {
          assignedAt := current.assignedAt;
        }
      } else {
        assert map[] + metadata == metadata;
      }
      assignment := Assignment(workerId, jobId, executorId, Fencing.AssignmentToken(workerId, executorId, version),
                               repoPath, assignedAt, now, now + ttlMs, version, Active, None, merged);
      workerAssignments := workerAssignments[workerId := assignment];
    }

    method ReleaseWorkerHeartbeat(workerId: string, executorId: string, reason: Option<string>, now: int)
      returns (assignment: Option<Assignment>)
      modifies this
      ensures (Contents(), AssignmentReply(assignment)) ==
        Step(old(Contents()), now, Op.ReleaseWorkerHeartbeat(workerId, executorId, reason), false)
    {
      if workerId !in workerAssignments || workerAssignments[workerId].executorId != executorId {
        return None;
      }
      var current := workerAssignments[workerId];
      var metadata := current.metadata;
      if reason.Some? {
        metadata := metadata["releaseReason" := reason.value];
      }
      var updated := current.(
        status := Released, releasedAt := Some(now), version := current.version + 1,
        fencingToken := Fencing.AssignmentToken(current.workerId, current.executorId, current.version + 1),
        metadata := metadata);
      workerAssignments := workerAssignments[workerId := updated];
      assignment := Some(updated);
    }

    method GetExecutor(executorId: string, staleAfterMs: int, now: int) returns (snapshot: Option<(Executor, bool)>)
      ensures (Contents(), ExecutorSnapshotReply(snapshot)) ==
              Step(Contents(), now, Op.GetExecutor(executorId, staleAfterMs), false)
    {
      if executorId !in executors {
        return None;
      }
      snapshot := Some(Snapshot(executors[executorId], staleAfterMs, now));
    }

    method ListExecutors(staleAfterMs: int, includeStale: bool, now: int)
      returns (listed: map<string, (Executor, bool)>)
      ensures (Contents(), ExecutorsReply(listed)) ==
              Step(Contents(), now, Op.ListExecutors(staleAfterMs, includeStale), false)
    {
      var snapshots := map e | e in executors :: Snapshot(executors[e], staleAfterMs, now);
      listed := map e | e in snapshots && (includeStale || !snapshots[e].1) :: snapshots[e];
      assert listed == Step(Contents(), now, Op.ListExecutors(staleAfterMs, includeStale), false).1.executors;
    }

    method GetWorkerAssignment(workerId: string, now: int) returns (snapshot: Option<(Assignment, HeartbeatState)>)
      ensures (Contents(), AssignmentSnapshotReply(snapshot)) ==
              Step(Contents(), now, Op.GetWorkerAssignment(workerId), false)
    {
      if workerId !in workerAssignments {
        return None;
      }
      snapshot := Some((workerAssignments[workerId], BeatState(workerAssignments[workerId], now)));
    }

    method ListWorkerAssignments(includeReleased: bool, includeStale: bool, now: int)
      returns (listed: map<string, (Assignment, HeartbeatState)>)
      ensures (Contents(), AssignmentsReply(listed)) ==
        Step(Contents(), now, Op.ListWorkerAssignments(includeReleased, includeStale), false)
    {
      var snapshots := AssignmentSnapshotsOf(workerAssignments, now);
      var kept := KeepReleased(snapshots, includeReleased);
      listed := KeepStale(kept, includeStale);
      ListingInStages(Contents(), includeReleased, includeStale, now, false);
    }
  }
}

/** `SqliteControlPlaneCoordinator`: the same interface over three tables keyed by their primary key. */
module SqliteCoordinator {
  import opened Wrappers
  import opened Coordination
  import Fencing

  class SqliteControlPlaneCoordinator {
    var controlExecutors: map<string, Executor>
    var controlLeases: map<string, Lease>
    var controlWorkerAssignments: map<string, Assignment>

    function Contents(): State
      reads this
    {
      State(controlExecutors, controlLeases, controlWorkerAssignments)
    }

    constructor ()
      ensures Contents() == INITIAL
    {
      controlExecutors, controlLeases, controlWorkerAssignments := map[], map[], map[];
    }

    method RegisterExecutor(executorId: string, registration: Registration, now: int) returns (record: Executor)
      modifies this
      ensures (Contents(), ExecutorReply(Some(record))) ==
              Step(old(Contents()), now, Op.RegisterExecutor(executorId, registration), true)
    {
      var current := Lookup(controlExecutors, executorId);
      var generation := (if current.Some? then current.value.generation else 0) + 1;
      record := Executor(executorId, Normalized(registration), generation,
                         Fencing.ExecutorToken(executorId, generation),
                         if current.Some? then current.value.registeredAt else now, now);
      controlExecutors := controlExecutors[executorId := record];
    }

    method HeartbeatExecutor(executorId: string, now: int) returns (record: Option<Executor>)
      modifies this
      ensures (Contents(), ExecutorReply(record)) == Step(old(Contents()), now, Op.HeartbeatExecutor(executorId), true)
    {
      var current := Lookup(controlExecutors, executorId);
      if current.None? {
        return None;
      }
      record := Some(current.value.(heartbeatAt := now));
      controlExecutors := controlExecutors[executorId := record.value];
    }

    method UnregisterExecutor(executorId: string, now: int) returns (deleted: bool)
      modifies this
      ensures (Contents(), BoolReply(deleted)) == Step(old(Contents()), now, Op.UnregisterExecutor(executorId), true)
    {
      deleted := executorId in controlExecutors;
      controlExecutors := controlExecutors - {executorId};
      controlLeases := map k | k in controlLeases && controlLeases[k].ownerId != executorId :: controlLeases[k];
      ReleaseRowsOf(executorId, now);
    }

    method ReleaseRow(workerId: string, now: int)
      requires workerId in controlWorkerAssignments
      modifies this`controlWorkerAssignments
      ensures var row := old(controlWorkerAssignments)[workerId];
        controlWorkerAssignments == if row.status == Released then old(controlWorkerAssignments)
            else old(controlWorkerAssignments)[workerId := ReleasedAssignment(row, now, UNREGISTER_REASON, true)]
    {
      var current := controlWorkerAssignments[workerId];
      if current.status == Released {
        return;
      }
      var updated := current.(
        status := Released, releasedAt := Some(now), version := current.version + 1,
        fencingToken := Fencing.AssignmentToken(current.workerId, current.executorId, current.version + 1),
        metadata := current.metadata["releaseReason" := "executor_unregistered"]);
      controlWorkerAssignments := controlWorkerAssignments[workerId := updated];
    }

    method ReleaseRowsOf(executorId: string, now: int)
      modifies this`controlWorkerAssignments
      ensures controlWorkerAssignments == Unregistered(old(Contents()), executorId, now, true).assignments
    {
      var rows := set w | w in controlWorkerAssignments && controlWorkerAssignments[w].executorId == executorId;
      NothingReleased(controlWorkerAssignments, controlWorkerAssignments.Keys - rows, executorId, now, true);
      while rows != {}
        invariant rows <= old(controlWorkerAssignments).Keys
        invariant forall w :: w in rows ==> old(controlWorkerAssignments)[w].executorId == executorId
        invariant controlWorkerAssignments ==
          ReleasedFor(old(controlWorkerAssignments), old(controlWorkerAssignments).Keys - rows, executorId, now, true)
        decreases |rows|
      {
        var workerId :| workerId in rows;
        ghost var done := old(controlWorkerAssignments).Keys - rows;
        rows := rows - {workerId};
        ReleaseOneMore(old(controlWorkerAssignments), done, workerId, executorId, now, true);
        assert old(controlWorkerAssignments).Keys - rows == done + {workerId};
        ReleaseRow(workerId, now);
      }
      assert old(controlWorkerAssignments).Keys - rows == old(controlWorkerAssignments).Keys;
    }

    method AcquireLease(leaseKey: string, ownerId: string, ttlMs: int, now: int) returns (lease: Option<Lease>)
      modifies this
      ensures (Contents(), LeaseReply(lease)) ==
              Step(old(Contents()), now, Op.AcquireLease(leaseKey, ownerId, ttlMs), true)
      ensures lease.Some? <==> leaseKey !in old(controlLeases) || old(controlLeases)[leaseKey].ownerId == ownerId
                               || now >= old(controlLeases)[leaseKey].expiresAt
      ensures lease.Some? ==>
        && controlLeases == old(controlLeases)[leaseKey := lease.value] && lease.value.leaseKey == leaseKey
        && lease.value.ownerId == ownerId && lease.value.heartbeatAt == now && lease.value.expiresAt == now + ttlMs
    {
      var current := Lookup(controlLeases, leaseKey);
      if current.Some? && current.value.ownerId != ownerId && !Expired(current.value.expiresAt, now) {
        return None;
      }
      var taken := current.None? || current.value.ownerId != ownerId;
      var version := if taken then 1 else current.value.version + 1;
      var next := Lease(leaseKey, ownerId, Fencing.LeaseToken(leaseKey, ownerId, version),
                        if taken then now else current.value.acquiredAt, now, now + ttlMs, version);
      controlLeases := controlLeases[leaseKey := next];
      lease := Some(next);
    }

    method ReleaseLease(leaseKey: string, ownerId: string, ghost now: int) returns (released: bool)
      modifies this
      ensures (Contents(), BoolReply(released)) == Step(old(Contents()), now, Op.ReleaseLease(leaseKey, ownerId), true)
    {
      var current := Lookup(controlLeases, leaseKey);
      if current.None? || current.value.ownerId != ownerId {
        return false;
      }
      controlLeases := controlLeases - {leaseKey};
      released := true;
    }

    method GetLease(leaseKey: string, now: int) returns (lease: Option<Lease>)
      modifies this
      ensures (Contents(), LeaseReply(lease)) == Step(old(Contents()), now, Op.GetLease(leaseKey), true)
    {
      lease := Lookup(controlLeases, leaseKey);
      if lease.Some? && Expired(lease.value.expiresAt, now) {
        controlLeases := controlLeases - {leaseKey};
        lease := None;
      }
    }

    method UpsertWorkerHeartbeat(workerId: string, jobId: string, executorId: string, repoPath: string, ttlMs: int,
                                 metadata: map<string, string>, now: int)
      returns (assignment: Assignment)
      modifies this
      ensures (Contents(), AssignmentReply(Some(assignment))) ==
        Step(old(Contents()), now, Op.UpsertWorkerHeartbeat(workerId, jobId, executorId, repoPath, ttlMs, metadata),
            true)
    {
      var current := Lookup(controlWorkerAssignments, workerId);
      var version := (if current.Some? then current.value.version else 0) + 1;
      assignment := Assignment(
        workerId, jobId, executorId, Fencing.AssignmentToken(workerId, executorId, version), repoPath,
        if current.None? || current.value.status == Released then now else current.value.assignedAt,
        now, now + ttlMs, version, Active, None, (if current.Some? then current.value.metadata else map[]) + metadata);
      controlWorkerAssignments := controlWorkerAssignments[workerId := assignment];
    }

    method ReleaseWorkerHeartbeat(workerId: string, executorId: string, reason: Option<string>, now: int)
      returns (assignment: Option<Assignment>)
      modifies this
      ensures (Contents(), AssignmentReply(assignment)) ==
        Step(old(Contents()), now, Op.ReleaseWorkerHeartbeat(workerId, executorId, reason), true)
    {
      var current := Lookup(controlWorkerAssignments, workerId);
      if current.None? || current.value.executorId != executorId {
        return None;
      }
      var nextVersion := current.value.version + 1;
      var updated := current.value.(
        status := Released, releasedAt := Some(now), version := nextVersion,
        fencingToken := Fencing.AssignmentToken(current.value.workerId, current.value.executorId, nextVersion),
        metadata := current.value.metadata + (if reason.Some? then map["releaseReason" := reason.value] else map[]));
      assert reason.Some? ==> current.value.metadata + map["releaseReason" := reason.value] ==
                              current.value.metadata["releaseReason" := reason.value];
      assert current.value.metadata + map[] == current.value.metadata;
      controlWorkerAssignments := controlWorkerAssignments[workerId := updated];
      assignment := Some(updated);
    }

    method GetExecutor(executorId: string, staleAfterMs: int, now: int) returns (snapshot: Option<(Executor, bool)>)
      ensures (Contents(), ExecutorSnapshotReply(snapshot)) ==
              Step(Contents(), now, Op.GetExecutor(executorId, staleAfterMs), true)
    {
      if executorId !in controlExecutors {
        return None;
      }
      snapshot := Some(Snapshot(controlExecutors[executorId], staleAfterMs, now));
    }

    method ListExecutors(staleAfterMs: int, includeStale: bool, now: int)
      returns (listed: map<string, (Executor, bool)>)
      ensures (Contents(), ExecutorsReply(listed)) ==
              Step(Contents(), now, Op.ListExecutors(staleAfterMs, includeStale), true)
    {
      var snapshots := map e | e in controlExecutors :: Snapshot(controlExecutors[e], staleAfterMs, now);
      listed := map e | e in snapshots && (includeStale || !snapshots[e].1) :: snapshots[e];
      assert listed == Step(Contents(), now, Op.ListExecutors(staleAfterMs, includeStale), true).1.executors;
    }

    method GetWorkerAssignment(workerId: string, now: int) returns (snapshot: Option<(Assignment, HeartbeatState)>)
      ensures (Contents(), AssignmentSnapshotReply(snapshot)) ==
              Step(Contents(), now, Op.GetWorkerAssignment(workerId), true)
    {
      if workerId !in controlWorkerAssignments {
        return None;
      }
      snapshot := Some((controlWorkerAssignments[workerId], BeatState(controlWorkerAssignments[workerId], now)));
    }

    method ListWorkerAssignments(includeReleased: bool, includeStale: bool, now: int)
      returns (listed: map<string, (Assignment, HeartbeatState)>)
      ensures (Contents(), AssignmentsReply(listed)) ==
        Step(Contents(), now, Op.ListWorkerAssignments(includeReleased, includeStale), true)
    {
      var snapshots := AssignmentSnapshotsOf(controlWorkerAssignments, now);
      var kept := KeepReleased(snapshots, includeReleased);
      listed := KeepStale(kept, includeStale);
      ListingInStages(Contents(), includeReleased, includeStale, now, true);
    }
  }
}
