/**
 The control-plane coordinator: executors, dispatch leases and worker assignments.

 `Step` is the interface both implementations are written against. They differ in one place only:
 the SQLite coordinator bumps the version of the assignments that an unregistered executor leaves
 behind (`bump`), the in-memory one does not. Times are integers (milliseconds); every call is given the
 clock value it reads.
 */
module Coordination {
  import opened Wrappers
  import Fencing

  /** What an executor asks to be registered with. */
  datatype Registration = Registration(
    hostId: string, processId: Option<int>, roles: Option<seq<string>>, executionModes: Option<seq<string>>,
    sameSessionReattach: Option<bool>, metadata: Option<map<string, string>>)

  /** What it is registered with: roles and modes without repetition, defaults filled in. */
  datatype Profile = Profile(
    hostId: string, processId: Option<int>, roles: seq<string>, executionModes: seq<string>, sameSessionReattach: bool,
    metadata: Option<map<string, string>>)

  datatype Executor = Executor(
    executorId: string, profile: Profile, generation: nat, registrationToken: string, registeredAt: int,
    heartbeatAt: int)

  datatype Lease = Lease(
    leaseKey: string, ownerId: string, fencingToken: string, acquiredAt: int, heartbeatAt: int, expiresAt: int,
    version: nat)

  datatype AssignmentStatus = Active | Released

  datatype Assignment = Assignment(
    workerId: string, jobId: string, executorId: string, fencingToken: string, repoPath: string, assignedAt: int,
    heartbeatAt: int, expiresAt: int, version: nat, status: AssignmentStatus, releasedAt: Option<int>,
    metadata: map<string, string>)

  datatype HeartbeatState = BeatActive | BeatStale | BeatReleased

  datatype State = State(
    executors: map<string, Executor>, leases: map<string, Lease>, assignments: map<string, Assignment>)

  const INITIAL := State(map[], map[], map[])

  datatype Op =
    | RegisterExecutor(executorId: string, registration: Registration)
    | HeartbeatExecutor(executorId: string)
    | UnregisterExecutor(executorId: string)
    | GetExecutor(executorId: string, staleAfterMs: int)
    | ListExecutors(staleAfterMs: int, includeStale: bool)
    | AcquireLease(leaseKey: string, ownerId: string, ttlMs: int)
    | ReleaseLease(leaseKey: string, ownerId: string)
    | GetLease(leaseKey: string)
    | UpsertWorkerHeartbeat(
        workerId: string, jobId: string, executorId: string, repoPath: string, ttlMs: int, metadata: map<string,
        string>)
    | ReleaseWorkerHeartbeat(workerId: string, executorId: string, reason: Option<string>)
    | GetWorkerAssignment(workerId: string)
    | ListWorkerAssignments(includeReleased: bool, includeStale: bool)

  datatype Reply =
    | ExecutorReply(executor: Option<Executor>)
    | ExecutorSnapshotReply(snapshot: Option<(Executor, bool)>)
    | ExecutorsReply(executors: map<string, (Executor, bool)>)
    | BoolReply(done: bool)
    | LeaseReply(lease: Option<Lease>)
    | AssignmentReply(assignment: Option<Assignment>)
    | AssignmentSnapshotReply(state: Option<(Assignment, HeartbeatState)>)
    | AssignmentsReply(assignments: map<string, (Assignment, HeartbeatState)>)

  function Lookup<V>(m: map<string, V>, k: string): Option<V> {
    if k in m then Some(m[k]) else None
  }

  predicate ExecutorStale(heartbeatAt: int, staleAfterMs: int, now: int) {
    now - heartbeatAt > staleAfterMs
  }

  predicate Expired(expiresAt: int, now: int) {
    now >= expiresAt
  }

  /** The record with its staleness. */
  function Snapshot(e: Executor, staleAfterMs: int, now: int): (Executor, bool) {
    (e, ExecutorStale(e.heartbeatAt, staleAfterMs, now))
  }

  function BeatState(a: Assignment, now: int): HeartbeatState {
    if a.status == Released then BeatReleased else if Expired(a.expiresAt, now) then BeatStale else BeatActive
  }

  /** `[...new Set(items)]`. */
  function Distinct(items: seq<string>): seq<string>
    decreases |items|
  {
    if items == [] then []
    else
      var front, last := items[..|items| - 1], items[|items| - 1];
      if last in front then Distinct(front) else Distinct(front) + [last]
  }

  function OrDefault(items: Option<seq<string>>, default: seq<string>): seq<string> {
    if items.None? || items.value == [] then default else Distinct(items.value)
  }

  function Normalized(r: Registration): Profile {
    Profile(r.hostId, r.processId, OrDefault(r.roles, ["scheduler", "worker"]),
            OrDefault(r.executionModes, ["process"]), r.sameSessionReattach == Some(true), r.metadata)
  }

  /** Normalising keeps exactly the items given, once each, in the order of their first mention. */
  lemma {:induction false} DistinctKeepsFirst(items: seq<string>)
    ensures forall x :: x in Distinct(items) <==> x in items
    ensures forall i, j :: 0 <= i < j < |Distinct(items)| ==> Distinct(items)[i] != Distinct(items)[j]
    ensures items != [] ==> Distinct(items) != [] && Distinct(items)[0] == items[0]
    ensures (forall i, j :: 0 <= i < j < |items| ==> items[i] != items[j]) ==> Distinct(items) == items
    decreases |items|
  {
    if items != [] {
      var front, last := items[..|items| - 1], items[|items| - 1];
      DistinctKeepsFirst(front);
      assert items == front + [last];
      if front == [] {
        assert Distinct(items) == [last];
      }
    }
  }

  function NextExecutor(current: Option<Executor>, executorId: string, registration: Registration, now: int): Executor {
    var generation := if current.Some? then current.value.generation + 1 else 1;
    Executor(executorId, Normalized(registration), generation, Fencing.ExecutorToken(executorId, generation),
             if current.Some? then current.value.registeredAt else now, now)
  }

  /** A live lease of another owner blocks; an expired one is taken over with version 1. */
  function NextLease(current: Option<Lease>, leaseKey: string, ownerId: string, ttlMs: int, now: int): Option<Lease> {
    if current.Some? && current.value.ownerId != ownerId && !Expired(current.value.expiresAt, now) then None
    else
      var renewal := current.Some? && current.value.ownerId == ownerId;
      var version := if renewal then current.value.version + 1 else 1;
      Some(Lease(leaseKey, ownerId, Fencing.LeaseToken(leaseKey, ownerId, version),
                 if renewal then current.value.acquiredAt else now, now, now + ttlMs, version))
  }

  function NextAssignment(current: Option<Assignment>, op: Op, now: int): Assignment
    requires op.UpsertWorkerHeartbeat?
  {
    var version := if current.Some? then current.value.version + 1 else 1;
    Assignment(op.workerId, op.jobId, op.executorId, Fencing.AssignmentToken(op.workerId, op.executorId, version),
               op.repoPath, if current.None? || current.value.status == Released then now else current.value.assignedAt,
               now, now + op.ttlMs, version, Active, None,
               (if current.Some? then current.value.metadata else map[]) + op.metadata)
  }

  function ReleasedAssignment(a: Assignment, now: int, reason: Option<string>, bump: bool): Assignment {
    var version := if bump then a.version + 1 else a.version;
    a.(status := Released, releasedAt := Some(now), version := version,
       fencingToken := if bump then Fencing.AssignmentToken(a.workerId, a.executorId, version) else a.fencingToken,
       metadata := if reason.Some? then a.metadata["releaseReason" := reason.value] else a.metadata)
  }

  const UNREGISTER_REASON: Option<string> := Some("executor_unregistered")

  predicate LeftBehind(a: Assignment, executorId: string) {
    a.executorId == executorId && a.status != Released
  }

  /** The assignments once those of `done` that the executor leaves behind have been released. */
  function ReleasedFor(assignments: map<string, Assignment>, done: set<string>, executorId: string, now: int,
      bump: bool): map<string, Assignment> {
    map w | w in assignments ::
      if w in done && LeftBehind(assignments[w], executorId)
      then ReleasedAssignment(assignments[w], now, UNREGISTER_REASON, bump) else assignments[w]
  }

  function Unregistered(s: State, executorId: string, now: int, bump: bool): State {
    State(s.executors - {executorId},
          map k | k in s.leases && s.leases[k].ownerId != executorId :: s.leases[k],
          ReleasedFor(s.assignments, s.assignments.Keys, executorId, now, bump))
  }

  lemma ReleaseOneMore(assignments: map<string, Assignment>, done: set<string>, w: string, executorId: string, now: int,
      bump: bool)
    requires w in assignments && w !in done
    ensures var so := ReleasedFor(assignments, done, executorId, now, bump);
      && so[w] == assignments[w]
      && ReleasedFor(assignments, done + {w}, executorId, now, bump) ==
           if LeftBehind(so[w], executorId) then so[w := ReleasedAssignment(so[w], now, UNREGISTER_REASON, bump)]
           else so
  {
  }

  lemma NothingReleased(assignments: map<string, Assignment>, done: set<string>, executorId: string, now: int,
      bump: bool)
    requires forall w :: w in done && w in assignments ==> assignments[w].executorId != executorId
    ensures ReleasedFor(assignments, done, executorId, now, bump) == assignments
  {
  }

  function Step(s: State, now: int, op: Op, bump: bool): (State, Reply) {
    match op
    case RegisterExecutor(id, registration) =>
      var next := NextExecutor(Lookup(s.executors, id), id, registration, now);
      (s.(executors := s.executors[id := next]), ExecutorReply(Some(next)))
    case HeartbeatExecutor(id) =>
      if id !in s.executors then (s, ExecutorReply(None))
      else
        var next := s.executors[id].(heartbeatAt := now);
        (s.(executors := s.executors[id := next]), ExecutorReply(Some(next)))
    case UnregisterExecutor(id) =>
      (Unregistered(s, id, now, bump), BoolReply(id in s.executors))
    case GetExecutor(id, staleAfterMs) =>
      (s, ExecutorSnapshotReply(
        if id in s.executors then Some(Snapshot(s.executors[id], staleAfterMs, now)) else None))
    case ListExecutors(staleAfterMs, includeStale) =>
      (s, ExecutorsReply(map e | e in s.executors &&
                                 (includeStale || !ExecutorStale(s.executors[e].heartbeatAt, staleAfterMs, now)) ::
                           Snapshot(s.executors[e], staleAfterMs, now)))
    case AcquireLease(key, owner, ttlMs) =>
      var next := NextLease(Lookup(s.leases, key), key, owner, ttlMs, now);
      (if next.Some? then s.(leases := s.leases[key := next.value]) else s, LeaseReply(next))
    case ReleaseLease(key, owner) =>
      var mine := key in s.leases && s.leases[key].ownerId == owner;
      (if mine then s.(leases := s.leases - {key}) else s, BoolReply(mine))
    case GetLease(key) =>
      if key !in s.leases then (s, LeaseReply(None))
      else if Expired(s.leases[key].expiresAt, now) then (s.(leases := s.leases - {key}), LeaseReply(None))
      else (s, LeaseReply(Some(s.leases[key])))
    case UpsertWorkerHeartbeat(w, _, _, _, _, _) =>
      var next := NextAssignment(Lookup(s.assignments, w), op, now);
      (s.(assignments := s.assignments[w := next]), AssignmentReply(Some(next)))
    case ReleaseWorkerHeartbeat(w, executor, reason) =>
      if w !in s.assignments || s.assignments[w].executorId != executor then (s, AssignmentReply(None))
      else
        var next := ReleasedAssignment(s.assignments[w], now, reason, true);
        (s.(assignments := s.assignments[w := next]), AssignmentReply(Some(next)))
    case GetWorkerAssignment(w) =>
      (s, AssignmentSnapshotReply(
        if w in s.assignments then Some((s.assignments[w], BeatState(s.assignments[w], now))) else None))
    case ListWorkerAssignments(includeReleased, includeStale) =>
      (s, AssignmentsReply(map w | w in s.assignments && Listed(s.assignments[w], includeReleased, includeStale, now) ::
                             (s.assignments[w], BeatState(s.assignments[w], now))))
  }

  predicate Listed(a: Assignment, includeReleased: bool, includeStale: bool, now: int) {
    && (includeReleased || a.status != Released)
    && (includeStale || BeatState(a, now) == BeatActive || a.status == Released)
  }

  type AssignmentSnapshots = map<string, (Assignment, HeartbeatState)>

  /** The stages of a listing of assignments: snapshots, then one filter after the other. */
  function AssignmentSnapshotsOf(assignments: map<string, Assignment>, now: int): AssignmentSnapshots {
    map w | w in assignments :: (assignments[w], BeatState(assignments[w], now))
  }

  function KeepReleased(snapshots: AssignmentSnapshots, includeReleased: bool): AssignmentSnapshots {
    map w | w in snapshots && (includeReleased || snapshots[w].0.status != Released) :: snapshots[w]
  }

  function KeepStale(snapshots: AssignmentSnapshots, includeStale: bool): AssignmentSnapshots {
    map w | w in snapshots && (includeStale || snapshots[w].1 == BeatActive || snapshots[w].0.status == Released) ::
      snapshots[w]
  }

  lemma ListingInStages(s: State, includeReleased: bool, includeStale: bool, now: int, bump: bool)
    ensures Step(s, now, Op.ListWorkerAssignments(includeReleased, includeStale), bump) ==
        (s, AssignmentsReply(KeepStale(KeepReleased(AssignmentSnapshotsOf(s.assignments, now), includeReleased),
            includeStale)))
  {
    var listed := KeepStale(KeepReleased(AssignmentSnapshotsOf(s.assignments, now), includeReleased), includeStale);
    assert listed == Step(s, now, Op.ListWorkerAssignments(includeReleased, includeStale), bump).1.assignments;
  }

  /** What a call does to the stored lease of one key. */
  function LeaseAfter(lease: Option<Lease>, key: string, now: int, op: Op): Option<Lease> {
    match op
    case AcquireLease(k, owner, ttlMs) =>
      if k != key then lease
      else
        var next := NextLease(lease, key, owner, ttlMs, now);
        if next.Some? then next else lease
    case ReleaseLease(k, owner) => if k == key && lease.Some? && lease.value.ownerId == owner then None else lease
    case GetLease(k) => if k == key && lease.Some? && Expired(lease.value.expiresAt, now) then None else lease
    case UnregisterExecutor(executor) => if lease.Some? && lease.value.ownerId == executor then None else lease
    case _ => lease
  }

  lemma StepLease(s: State, now: int, op: Op, bump: bool, key: string)
    ensures Lookup(Step(s, now, op, bump).0.leases, key) == LeaseAfter(Lookup(s.leases, key), key, now, op)
  {
  }

  /** What a call does to the stored assignment of one worker. */
  function AssignmentAfter(a: Option<Assignment>, w: string, now: int, op: Op, bump: bool): Option<Assignment> {
    match op
    case UnregisterExecutor(executor) =>
      if a.Some? && LeftBehind(a.value, executor) then Some(ReleasedAssignment(a.value, now, UNREGISTER_REASON, bump))
          else a
    case UpsertWorkerHeartbeat(worker, _, _, _, _, _) => if worker == w then Some(NextAssignment(a, op, now)) else a
    case ReleaseWorkerHeartbeat(worker, executor, reason) =>
      if worker == w && a.Some? && a.value.executorId == executor
      then Some(ReleasedAssignment(a.value, now, reason, true)) else a
    case _ => a
  }

  lemma StepAssignment(s: State, now: int, op: Op, bump: bool, w: string)
    ensures Lookup(Step(s, now, op, bump).0.assignments, w) ==
            AssignmentAfter(Lookup(s.assignments, w), w, now, op, bump)
  {
  }

  /** One call of a run: the clock value it reads and what is called. */
  datatype Call = Call(now: int, op: Op)

  /** The state after a run of calls. */
  function Run(s: State, calls: seq<Call>, bump: bool): State
    decreases |calls|
  {
    if calls == [] then s
    else Run(Step(s, calls[0].now, calls[0].op, bump).0, calls[1..], bump)
  }

  /** The replies of a run of calls, in order. */
  function Replies(s: State, calls: seq<Call>, bump: bool): seq<Reply>
    decreases |calls|
  {
    if calls == [] then []
    else
      var (next, reply) := Step(s, calls[0].now, calls[0].op, bump);
      [reply] + Replies(next, calls[1..], bump)
  }

  /** A clock that never runs backwards and has reached `from` before the first call. */
  ghost predicate ClockFrom(from: int, calls: seq<Call>)
    decreases |calls|
  {
    calls != [] ==> from <= calls[0].now && ClockFrom(calls[0].now, calls[1..])
  }

  /** The clock after a run. */
  function ClockAfter(from: int, calls: seq<Call>): int
    decreases |calls|
  {
    if calls == [] then from else ClockAfter(calls[0].now, calls[1..])
  }
}
