/**
 The SQLite coordinator simulates the in-memory one: over every run they hold the same executors, leases and
 assignments and give the same replies, up to the version and token of assignments.
 */
module CoordinatorSimulation {
  import opened Wrappers
  import opened Coordination

  /** Equal but for version and token, the SQLite version being no smaller. */
  ghost predicate SameButVersion(inMemory: Assignment, sqlite: Assignment) {
    && inMemory.workerId == sqlite.workerId && inMemory.jobId == sqlite.jobId
    && inMemory.executorId == sqlite.executorId && inMemory.repoPath == sqlite.repoPath
    && inMemory.assignedAt == sqlite.assignedAt && inMemory.heartbeatAt == sqlite.heartbeatAt
    && inMemory.expiresAt == sqlite.expiresAt && inMemory.status == sqlite.status
    && inMemory.releasedAt == sqlite.releasedAt && inMemory.metadata == sqlite.metadata
    && inMemory.version <= sqlite.version
  }

  ghost predicate Simulates(inMemory: State, sqlite: State) {
    && inMemory.executors == sqlite.executors
    && inMemory.leases == sqlite.leases
    && inMemory.assignments.Keys == sqlite.assignments.Keys
    && forall w :: w in inMemory.assignments ==> SameButVersion(inMemory.assignments[w], sqlite.assignments[w])
  }

  ghost predicate SameReply(r: Reply, q: Reply) {
    match (r, q)
    case (AssignmentReply(Some(a)), AssignmentReply(Some(b))) => SameButVersion(a, b)
    case (AssignmentSnapshotReply(Some(a)), AssignmentSnapshotReply(Some(b))) => SameButVersion(a.0, b.0) && a.1 == b.1
    case (AssignmentsReply(m), AssignmentsReply(n)) =>
      m.Keys == n.Keys && forall w :: w in m ==> SameButVersion(m[w].0, n[w].0) && m[w].1 == n[w].1
    case _ => r == q
  }

  lemma UnregisterSimulates(inMemory: State, sqlite: State, executorId: string, now: int)
    requires Simulates(inMemory, sqlite)
    ensures Simulates(Unregistered(inMemory, executorId, now, false), Unregistered(sqlite, executorId, now, true))
  {
    forall w | w in inMemory.assignments
      ensures SameButVersion(Unregistered(inMemory, executorId, now, false).assignments[w],
                             Unregistered(sqlite, executorId, now, true).assignments[w])
    {
      assert SameButVersion(inMemory.assignments[w], sqlite.assignments[w]);
    }
  }

  lemma UpsertSimulates(inMemory: State, sqlite: State, now: int, op: Op)
    requires Simulates(inMemory, sqlite) && op.UpsertWorkerHeartbeat?
    ensures Simulates(Step(inMemory, now, op, false).0, Step(sqlite, now, op, true).0)
    ensures SameReply(Step(inMemory, now, op, false).1, Step(sqlite, now, op, true).1)
  {
    var w := op.workerId;
    if w in inMemory.assignments {
      assert SameButVersion(inMemory.assignments[w], sqlite.assignments[w]);
    }
  }

  lemma ReleaseSimulates(inMemory: State, sqlite: State, now: int, op: Op)
    requires Simulates(inMemory, sqlite) && op.ReleaseWorkerHeartbeat?
    ensures Simulates(Step(inMemory, now, op, false).0, Step(sqlite, now, op, true).0)
    ensures SameReply(Step(inMemory, now, op, false).1, Step(sqlite, now, op, true).1)
  {
    var w := op.workerId;
    if w in inMemory.assignments {
      assert SameButVersion(inMemory.assignments[w], sqlite.assignments[w]);
    }
  }

  lemma ListAssignmentsSimulates(inMemory: State, sqlite: State, now: int, op: Op)
    requires Simulates(inMemory, sqlite) && op.ListWorkerAssignments?
    ensures Simulates(Step(inMemory, now, op, false).0, Step(sqlite, now, op, true).0)
    ensures SameReply(Step(inMemory, now, op, false).1, Step(sqlite, now, op, true).1)
  {
    forall w | w in inMemory.assignments ensures SameButVersion(inMemory.assignments[w], sqlite.assignments[w]) {}
    assert Step(inMemory, now, op, false).0 == inMemory && Step(sqlite, now, op, true).0 == sqlite;
  }

  lemma GetAssignmentSimulates(inMemory: State, sqlite: State, now: int, op: Op)
    requires Simulates(inMemory, sqlite) && op.GetWorkerAssignment?
    ensures Simulates(Step(inMemory, now, op, false).0, Step(sqlite, now, op, true).0)
    ensures SameReply(Step(inMemory, now, op, false).1, Step(sqlite, now, op, true).1)
  {
    assert Step(inMemory, now, op, false).0 == inMemory && Step(sqlite, now, op, true).0 == sqlite;
  }

  predicate ExecutorOp(op: Op) {
    op.RegisterExecutor? || op.HeartbeatExecutor? || op.GetExecutor? || op.ListExecutors?
  }

  predicate LeaseOp(op: Op) {
    op.AcquireLease? || op.ReleaseLease? || op.GetLease?
  }

  /** Calls on executors leave leases and assignments alone and reply alike. */
  lemma ExecutorOpSimulates(inMemory: State, sqlite: State, now: int, op: Op)
    requires Simulates(inMemory, sqlite) && ExecutorOp(op)
    ensures Simulates(Step(inMemory, now, op, false).0, Step(sqlite, now, op, true).0)
    ensures SameReply(Step(inMemory, now, op, false).1, Step(sqlite, now, op, true).1)
  {
    var next, next' := Step(inMemory, now, op, false).0, Step(sqlite, now, op, true).0;
    assert next.leases == inMemory.leases && next.assignments == inMemory.assignments;
    assert next'.leases == sqlite.leases && next'.assignments == sqlite.assignments;
    assert Step(inMemory, now, op, false).1 == Step(sqlite, now, op, true).1;
  }

  /** Calls on leases leave executors and assignments alone and reply alike. */
  lemma LeaseOpSimulates(inMemory: State, sqlite: State, now: int, op: Op)
    requires Simulates(inMemory, sqlite) && LeaseOp(op)
    ensures Simulates(Step(inMemory, now, op, false).0, Step(sqlite, now, op, true).0)
    ensures SameReply(Step(inMemory, now, op, false).1, Step(sqlite, now, op, true).1)
  {
    var next, next' := Step(inMemory, now, op, false).0, Step(sqlite, now, op, true).0;
    assert next.executors == inMemory.executors && next.assignments == inMemory.assignments;
    assert next'.executors == sqlite.executors && next'.assignments == sqlite.assignments;
    assert Step(inMemory, now, op, false).1 == Step(sqlite, now, op, true).1;
  }

  lemma StepSimulates(inMemory: State, sqlite: State, now: int, op: Op)
    requires Simulates(inMemory, sqlite)
    ensures Simulates(Step(inMemory, now, op, false).0, Step(sqlite, now, op, true).0)
    ensures SameReply(Step(inMemory, now, op, false).1, Step(sqlite, now, op, true).1)
  {
    if op.UnregisterExecutor? {
      UnregisterSimulates(inMemory, sqlite, op.executorId, now);
    } else if op.UpsertWorkerHeartbeat? {
      UpsertSimulates(inMemory, sqlite, now, op);
    } else if op.ReleaseWorkerHeartbeat? {
      ReleaseSimulates(inMemory, sqlite, now, op);
    } else if op.GetWorkerAssignment? {
      GetAssignmentSimulates(inMemory, sqlite, now, op);
    } else if op.ListWorkerAssignments? {
      ListAssignmentsSimulates(inMemory, sqlite, now, op);
    } else if ExecutorOp(op) {
      ExecutorOpSimulates(inMemory, sqlite, now, op);
    } else {
      LeaseOpSimulates(inMemory, sqlite, now, op);
    }
  }

  /** Simulation over whole runs: states after the run and every reply along it. */
  lemma {:induction false} RunSimulates(inMemory: State, sqlite: State, calls: seq<Call>)
    requires Simulates(inMemory, sqlite)
    ensures Simulates(Run(inMemory, calls, false), Run(sqlite, calls, true))
    ensures |Replies(inMemory, calls, false)| == |Replies(sqlite, calls, true)| == |calls|
    ensures forall i :: 0 <= i < |calls| ==>
      SameReply(Replies(inMemory, calls, false)[i], Replies(sqlite, calls, true)[i])
    decreases |calls|
  {
    if calls != [] {
      var Call(now, op) := calls[0];
      StepSimulates(inMemory, sqlite, now, op);
      RunSimulates(Step(inMemory, now, op, false).0, Step(sqlite, now, op, true).0, calls[1..]);
    }
  }

  /** Both coordinators start empty, so the simulation holds for every run. */
  lemma CoordinatorsAgree(calls: seq<Call>)
    ensures Simulates(Run(INITIAL, calls, false), Run(INITIAL, calls, true))
    ensures |Replies(INITIAL, calls, false)| == |Replies(INITIAL, calls, true)| == |calls|
    ensures forall i :: 0 <= i < |calls| ==> SameReply(Replies(INITIAL, calls, false)[i],
            Replies(INITIAL, calls, true)[i])
  {
    RunSimulates(INITIAL, INITIAL, calls);
  }

  /** How far the versions have drifted apart for one worker. */
  ghost function Gap(inMemory: Option<Assignment>, sqlite: Option<Assignment>): int {
    if inMemory.Some? && sqlite.Some? then sqlite.value.version - inMemory.value.version else 0
  }

  predicate Abandons(a: Option<Assignment>, op: Op) {
    op.UnregisterExecutor? && a.Some? && LeftBehind(a.value, op.executorId)
  }

  /** How many calls of a run unregister the executor then actively holding worker `w`. */
  function Abandonments(a: Option<Assignment>, calls: seq<Call>, w: string): nat
    decreases |calls|
  {
    if calls == [] then 0
    else
      (if Abandons(a, calls[0].op) then 1 else 0)
      + Abandonments(AssignmentAfter(a, w, calls[0].now, calls[0].op, false), calls[1..], w)
  }

  lemma StepGap(a: Option<Assignment>, b: Option<Assignment>, w: string, now: int, op: Op)
    requires a.Some? == b.Some? && (a.Some? ==> SameButVersion(a.value, b.value))
    ensures Gap(AssignmentAfter(a, w, now, op, false), AssignmentAfter(b, w, now, op, true)) ==
            Gap(a, b) + (if Abandons(a, op) then 1 else 0)
  {
  }

  /** The drift is exact: one version per unregistration that took the worker's executor away. */
  lemma {:induction false} GapCountsAbandonments(inMemory: State, sqlite: State, calls: seq<Call>, w: string)
    requires Simulates(inMemory, sqlite)
    ensures Gap(Lookup(Run(inMemory, calls, false).assignments, w), Lookup(Run(sqlite, calls, true).assignments, w)) ==
            Gap(Lookup(inMemory.assignments, w), Lookup(sqlite.assignments, w))
            + Abandonments(Lookup(inMemory.assignments, w), calls, w)
    decreases |calls|
  {
    if calls != [] {
      var Call(now, op) := calls[0];
      StepSimulates(inMemory, sqlite, now, op);
      StepAssignment(inMemory, now, op, false, w);
      StepAssignment(sqlite, now, op, true, w);
      StepGap(Lookup(inMemory.assignments, w), Lookup(sqlite.assignments, w), w, now, op);
      GapCountsAbandonments(Step(inMemory, now, op, false).0, Step(sqlite, now, op, true).0, calls[1..], w);
    }
  }
}

/** Tokens issued for one worker only ever grow, on both coordinators and whoever the executors are. */
module AssignmentFencing {
  import opened Wrappers
  import opened Coordination
  import Fencing

  /** The token stored with an assignment is the one built from its own ids and version. */
  ghost predicate TokenMatches(a: Option<Assignment>, w: string) {
    a.Some? ==>
      && a.value.workerId == w && a.value.version >= 1
      && a.value.fencingToken == Fencing.AssignmentToken(w, a.value.executorId, a.value.version)
  }

  function VersionOf(a: Option<Assignment>): nat {
    if a.Some? then a.value.version else 0
  }

  /** The token a call hands out for worker `w`: the one in its reply. */
  function IssuedBy(s: State, call: Call, bump: bool, w: string): seq<string> {
    var reply := Step(s, call.now, call.op, bump).1;
    if (call.op.UpsertWorkerHeartbeat? || call.op.ReleaseWorkerHeartbeat?) && call.op.workerId == w
       && reply.AssignmentReply? && reply.assignment.Some?
    then [reply.assignment.value.fencingToken] else []
  }

  /** The tokens handed out for worker `w` along a run. */
  function Issued(s: State, calls: seq<Call>, bump: bool, w: string): seq<string>
    decreases |calls|
  {
    if calls == [] then []
    else IssuedBy(s, calls[0], bump, w) + Issued(Step(s, calls[0].now, calls[0].op, bump).0, calls[1..], bump, w)
  }

  lemma AfterKeepsToken(a: Option<Assignment>, w: string, now: int, op: Op, bump: bool)
    requires TokenMatches(a, w)
    ensures TokenMatches(AssignmentAfter(a, w, now, op, bump), w)
    ensures VersionOf(a) <= VersionOf(AssignmentAfter(a, w, now, op, bump))
  {
  }

  /** A token handed out is the new current one, and its version is above the previous current version. */
  lemma IssueRaisesVersion(s: State, call: Call, bump: bool, w: string)
    requires TokenMatches(Lookup(s.assignments, w), w) && IssuedBy(s, call, bump, w) != []
    ensures var after := AssignmentAfter(Lookup(s.assignments, w), w, call.now, call.op, bump);
      && after.Some? && IssuedBy(s, call, bump, w) == [after.value.fencingToken]
      && Fencing.TokenVersion(after.value.fencingToken) == VersionOf(after) > VersionOf(Lookup(s.assignments, w))
  {
    var after := AssignmentAfter(Lookup(s.assignments, w), w, call.now, call.op, bump);
    Fencing.AssignmentTokenVersion(w, after.value.executorId, after.value.version);
  }

  ghost predicate VersionsIncreaseFrom(from: int, tokens: seq<string>) {
    && (forall i :: 0 <= i < |tokens| ==> from < Fencing.TokenVersion(tokens[i]))
    && (forall i, j :: 0 <= i < j < |tokens| ==> Fencing.TokenVersion(tokens[i]) < Fencing.TokenVersion(tokens[j]))
  }

  lemma {:induction false} IssuedFromCurrent(s: State, calls: seq<Call>, bump: bool, w: string)
    requires TokenMatches(Lookup(s.assignments, w), w)
    ensures VersionsIncreaseFrom(VersionOf(Lookup(s.assignments, w)), Issued(s, calls, bump, w))
    decreases |calls|
  {
    if calls != [] {
      var Call(now, op) := calls[0];
      var next := Step(s, now, op, bump).0;
      StepAssignment(s, now, op, bump, w);
      AfterKeepsToken(Lookup(s.assignments, w), w, now, op, bump);
      IssuedFromCurrent(next, calls[1..], bump, w);
      if IssuedBy(s, calls[0], bump, w) != [] {
        IssueRaisesVersion(s, calls[0], bump, w);
      }
    }
  }

  /** Over any run, a token issued earlier for a worker compares below every token issued later, so none repeats. */
  lemma IssuedTokensIncrease(calls: seq<Call>, bump: bool, w: string, i: nat, j: nat)
    requires i < j < |Issued(INITIAL, calls, bump, w)|
    ensures var tokens := Issued(INITIAL, calls, bump, w);
      Fencing.Compare(Some(tokens[i]), Some(tokens[j])) < 0 && tokens[i] != tokens[j]
  {
    IssuedFromCurrent(INITIAL, calls, bump, w);
  }

  /**
   Unregistering an executor fences off the assignment it held exactly when the version is bumped:
   the in-memory coordinator leaves the old token current.
   */
  lemma UnregisterFencesIffBumped(s: State, executorId: string, now: int, bump: bool, w: string)
    requires w in s.assignments && TokenMatches(Some(s.assignments[w]), w) && LeftBehind(s.assignments[w], executorId)
    ensures w in Step(s, now, Op.UnregisterExecutor(executorId), bump).0.assignments
    ensures var after := Step(s, now, Op.UnregisterExecutor(executorId), bump).0.assignments[w];
      && after.status == Released
      && (Fencing.Compare(Some(s.assignments[w].fencingToken), Some(after.fencingToken)) < 0 <==> bump)
      && (s.assignments[w].fencingToken == after.fencingToken <==> !bump)
  {
    var a := s.assignments[w];
    Fencing.CompareAssignmentTokens(w, a.executorId, a.version, w, a.executorId, a.version + 1);
  }
}
