/** How long what the coordinator grants lasts, over whole runs, and who is granted a lease. */
module LeaseTerms {
  import opened Wrappers
  import opened Coordination
  import opened LeaseHistory

  lemma {:induction false} RunConcat(s: State, a: seq<Call>, b: seq<Call>, bump: bool)
    ensures Run(s, a + b, bump) == Run(Run(s, a, bump), b, bump)
    decreases |a|
  {
    if a == [] {
      assert a + b == b;
    } else {
      assert (a + b)[1..] == a[1..] + b;
      RunConcat(Step(s, a[0].now, a[0].op, bump).0, a[1..], b, bump);
    }
  }

  lemma {:induction false} ClockConcat(from: int, a: seq<Call>, b: seq<Call>)
    ensures ClockFrom(from, a + b) <==> ClockFrom(from, a) && ClockFrom(ClockAfter(from, a), b)
    decreases |a|
  {
    if a == [] {
      assert a + b == b;
    } else {
      assert (a + b)[1..] == a[1..] + b;
      ClockConcat(a[0].now, a[1..], b);
    }
  }

  lemma {:induction false} HistoryConcat(holds: seq<Hold>, s: State, key: string, a: seq<Call>, b: seq<Call>,
      bump: bool)
    ensures History(holds, s, key, a + b, bump) ==
            History(History(holds, s, key, a, bump), Run(s, a, bump), key, b, bump)
    decreases |a|
  {
    if a == [] {
      assert a + b == b;
    } else {
      assert (a + b)[1..] == a[1..] + b;
      HistoryConcat(Record(holds, Lookup(s.leases, key), key, a[0]), Step(s, a[0].now, a[0].op, bump).0, key, a[1..], b,
          bump);
    }
  }

  /** No acquire, release or unregistration of this owner. */
  predicate Quiet(op: Op, key: string, owner: string) {
    match op
    case AcquireLease(k, o, _) => k != key || o != owner
    case ReleaseLease(k, o) => k != key || o != owner
    case UnregisterExecutor(executor) => executor != owner
    case _ => true
  }

  ghost predicate AllQuiet(calls: seq<Call>, key: string, owner: string) {
    forall call :: call in calls ==> Quiet(call.op, key, owner)
  }

  /** This hold stands at place `k`, its owner has none after it, and what is stored of this owner is this hold. */
  ghost predicate Stands(holds: seq<Hold>, stored: Option<Lease>, k: nat, hold: Hold) {
    && k < |holds| && holds[k] == hold
    && (forall j :: k < j < |holds| ==> holds[j].ownerId != hold.ownerId)
    && (stored.Some? && stored.value.ownerId == hold.ownerId ==> k == |holds| - 1)
  }

  lemma RecordKeepsStanding(holds: seq<Hold>, stored: Option<Lease>, key: string, from: int, call: Call, k: nat,
      hold: Hold)
    requires Good(holds, stored, key, from) && Stands(holds, stored, k, hold) && Quiet(call.op, key, hold.ownerId)
    ensures Stands(Record(holds, stored, key, call), LeaseAfter(stored, key, call.now, call.op), k, hold)
  {
    var cut := if Interrupts(stored, key, call.op) then CutLast(holds, call.now) else holds;
    if Interrupts(stored, key, call.op) {
      assert holds[|holds| - 1].ownerId == stored.value.ownerId != hold.ownerId;
      assert k < |holds| - 1;
    }
    assert Stands(cut, stored, k, hold);
  }

  lemma {:induction false} HistoryKeepsStanding(holds: seq<Hold>, s: State, key: string, from: int, calls: seq<Call>,
      bump: bool, k: nat, hold: Hold)
    requires Good(holds, Lookup(s.leases, key), key, from) && ClockFrom(from, calls)
    requires Stands(holds, Lookup(s.leases, key), k, hold) && AllQuiet(calls, key, hold.ownerId)
    ensures Stands(History(holds, s, key, calls, bump), Lookup(Run(s, calls, bump).leases, key), k, hold)
    decreases |calls|
  {
    if calls != [] {
      assert calls[0] in calls;
      RecordKeepsGood(holds, Lookup(s.leases, key), key, from, calls[0]);
      RecordKeepsStanding(holds, Lookup(s.leases, key), key, from, calls[0], k, hold);
      StepLease(s, calls[0].now, calls[0].op, bump, key);
      HistoryKeepsStanding(Record(holds, Lookup(s.leases, key), key, calls[0]),
          Step(s, calls[0].now, calls[0].op, bump).0, key, calls[0].now, calls[1..], bump, k, hold);
    }
  }

  /** The history and the store after a call at the end of a run. */
  lemma AfterOneMore(key: string, from: int, before: seq<Call>, call: Call, bump: bool)
    requires ClockFrom(from, before + [call])
    ensures var s, holds := Run(INITIAL, before, bump), History([], INITIAL, key, before, bump);
      var holds' := History([], INITIAL, key, before + [call], bump);
      && Good(holds, Lookup(s.leases, key), key, ClockAfter(from, before)) && ClockAfter(from, before) <= call.now
      && holds' == Record(holds, Lookup(s.leases, key), key, call)
      && Run(INITIAL, before + [call], bump) == Step(s, call.now, call.op, bump).0
      && Good(holds', Lookup(Step(s, call.now, call.op, bump).0.leases, key), key, call.now)
      && ClockAfter(from, before + [call]) == call.now
  {
    ClockConcat(from, before, [call]);
    HistoryGood([], INITIAL, key, from, before, bump);
    HistoryConcat([], INITIAL, key, before, [call], bump);
    RunConcat(INITIAL, before, [call], bump);
    var s, holds := Run(INITIAL, before, bump), History([], INITIAL, key, before, bump);
    assert [call][1..] == [];
    RecordKeepsGood(holds, Lookup(s.leases, key), key, ClockAfter(from, before), call);
    StepLease(s, call.now, call.op, bump, key);
    ClockAfterConcat(from, before, call);
  }

  lemma {:induction false} ClockAfterConcat(from: int, before: seq<Call>, call: Call)
    ensures ClockAfter(from, before + [call]) == call.now
    decreases |before|
  {
    if before == [] {
      assert before + [call] == [call] && [call][1..] == [];
    } else {
      assert (before + [call])[1..] == before[1..] + [call];
      ClockAfterConcat(before[0].now, before[1..], call);
    }
  }

  function Grant(before: seq<Call>, now: int, key: string, owner: string, ttlMs: int, bump: bool): Reply {
    Step(Run(INITIAL, before, bump), now, AcquireLease(key, owner, ttlMs), bump).1
  }

  /**
   A granted lease lasts exactly `ttlMs` from the call that was granted, be it the first grant, a takeover or a renewal,
   unless its owner calls again.
   */
  lemma GrantLasts(key: string, from: int, before: seq<Call>, now: int, owner: string, ttlMs: int, later: seq<Call>,
      bump: bool, t: int)
    requires ClockFrom(from, before + [Call(now, AcquireLease(key, owner, ttlMs))] + later)
    requires Grant(before, now, key, owner, ttlMs, bump).lease.Some? && AllQuiet(later, key, owner) && now <= t
    ensures var lease := Grant(before, now, key, owner, ttlMs, bump).lease.value;
      lease.leaseKey == key && lease.ownerId == owner && lease.heartbeatAt == now && lease.expiresAt == now + ttlMs
    ensures var calls := before + [Call(now, AcquireLease(key, owner, ttlMs))] + later;
      HeldBy(History([], INITIAL, key, calls, bump), owner, t) <==> t < now + ttlMs
  {
    var call := Call(now, AcquireLease(key, owner, ttlMs));
    ClockConcat(from, before + [call], later);
    AfterOneMore(key, from, before, call, bump);
    var s, holds := Run(INITIAL, before + [call], bump), History([], INITIAL, key, before + [call], bump);
    var k := |holds| - 1;
    assert Stands(holds, Lookup(s.leases, key), k, holds[k]);
    HistoryConcat([], INITIAL, key, before + [call], later, bump);
    HistoryGood(holds, s, key, now, later, bump);
    HistoryKeepsStanding(holds, s, key, now, later, bump, k, holds[k]);
    OnlyThisHold(History(holds, s, key, later, bump), k, owner, now, t);
  }

  /** The last hold of an owner in an ordered history decides from its start on. */
  lemma OnlyThisHold(holds: seq<Hold>, k: nat, owner: string, start: int, t: int)
    requires k < |holds| && InOrder(holds) && holds[k].ownerId == owner && holds[k].start == start <= t
    requires forall j :: k < j < |holds| ==> holds[j].ownerId != owner
    ensures HeldBy(holds, owner, t) <==> t < holds[k].end
  {
  }

  /** A lease is granted exactly if nobody else holds the key at that moment. */
  lemma GrantedIffFree(key: string, from: int, before: seq<Call>, now: int, owner: string, ttlMs: int, bump: bool)
    requires ClockFrom(from, before + [Call(now, AcquireLease(key, owner, ttlMs))])
    ensures Grant(before, now, key, owner, ttlMs, bump).lease.Some? <==>
            forall other :: other != owner ==> !HeldBy(History([], INITIAL, key, before, bump), other, now)
  {
    AfterOneMore(key, from, before, Call(now, AcquireLease(key, owner, ttlMs)), bump);
    ClockConcat(from, before, [Call(now, AcquireLease(key, owner, ttlMs))]);
    forall other ensures HolderNow(key, before, bump, other, now) {
      HolderIsStored(key, from, before, bump, other, now);
    }
    var s := Run(INITIAL, before, bump);
    if key in s.leases {
      assert HolderNow(key, before, bump, s.leases[key].ownerId, now);
    }
    assert forall other :: HolderNow(key, before, bump, other, now);
  }

  ghost predicate HolderNow(key: string, before: seq<Call>, bump: bool, owner: string, now: int) {
    var leases := Run(INITIAL, before, bump).leases;
    HeldBy(History([], INITIAL, key, before, bump), owner, now) <==>
    key in leases && leases[key].ownerId == owner && now < leases[key].expiresAt
  }

  lemma HolderIsStored(key: string, from: int, before: seq<Call>, bump: bool, owner: string, now: int)
    requires ClockFrom(from, before) && ClockAfter(from, before) <= now
    ensures HolderNow(key, before, bump, owner, now)
  {
    HolderIsStoredOwner(key, from, before, bump, owner, now);
    HistoryGood([], INITIAL, key, from, before, bump);
  }

  /** Reading a lease reports exactly the one who holds the key. */
  lemma ReadReportsHolder(key: string, from: int, before: seq<Call>, now: int, owner: string, bump: bool)
    requires ClockFrom(from, before) && ClockAfter(from, before) <= now
    ensures var reply := Step(Run(INITIAL, before, bump), now, GetLease(key), bump).1;
      HeldBy(History([], INITIAL, key, before, bump), owner, now) <==>
      reply.lease.Some? && reply.lease.value.ownerId == owner
  {
    HolderIsStored(key, from, before, bump, owner, now);
  }

  /** No hold of this owner reaches beyond this moment, and nothing is stored for it. */
  ghost predicate Gone(holds: seq<Hold>, stored: Option<Lease>, owner: string, now: int) {
    && (forall k :: 0 <= k < |holds| && holds[k].ownerId == owner ==> holds[k].end <= now)
    && (stored.Some? ==> stored.value.ownerId != owner)
  }

  lemma {:induction false} HistoryKeepsGone(holds: seq<Hold>, s: State, key: string, calls: seq<Call>, bump: bool,
      owner: string, now: int)
    requires Gone(holds, Lookup(s.leases, key), owner, now) && AllQuiet(calls, key, owner)
    ensures Gone(History(holds, s, key, calls, bump), Lookup(Run(s, calls, bump).leases, key), owner, now)
    decreases |calls|
  {
    if calls != [] {
      assert calls[0] in calls;
      StepLease(s, calls[0].now, calls[0].op, bump, key);
      HistoryKeepsGone(Record(holds, Lookup(s.leases, key), key, calls[0]),
          Step(s, calls[0].now, calls[0].op, bump).0, key, calls[1..], bump, owner, now);
    }
  }

  /** A release or an unregistration ends the owner's hold at once, until it acquires again. */
  lemma ReleaseEndsHold(key: string, from: int, before: seq<Call>, now: int, op: Op, owner: string, later: seq<Call>,
      bump: bool, t: int)
    requires op == ReleaseLease(key, owner) || op == UnregisterExecutor(owner)
    requires ClockFrom(from, before + [Call(now, op)] + later) && AllQuiet(later, key, owner) && now <= t
    ensures !HeldBy(History([], INITIAL, key, before + [Call(now, op)] + later, bump), owner, t)
  {
    var call := Call(now, op);
    ClockConcat(from, before + [call], later);
    AfterOneMore(key, from, before, call, bump);
    var s, holds := Run(INITIAL, before + [call], bump), History([], INITIAL, key, before + [call], bump);
    LastEnds(History([], INITIAL, key, before, bump), Lookup(Run(INITIAL, before, bump).leases, key), key, call, owner,
        ClockAfter(from, before));
    StepLease(Run(INITIAL, before, bump), now, op, bump, key);
    HistoryConcat([], INITIAL, key, before + [call], later, bump);
    HistoryKeepsGone(holds, s, key, later, bump, owner, now);
  }

  lemma LastEnds(holds: seq<Hold>, stored: Option<Lease>, key: string, call: Call, owner: string, from: int)
    requires Good(holds, stored, key, from) && from <= call.now
    requires call.op == ReleaseLease(key, owner) || call.op == UnregisterExecutor(owner)
    ensures Gone(Record(holds, stored, key, call), LeaseAfter(stored, key, call.now, call.op), owner, call.now)
  {
    var holds' := Record(holds, stored, key, call);
    forall k | 0 <= k < |holds'| && holds'[k].ownerId == owner ensures holds'[k].end <= call.now {
      if k < |holds| - 1 {
        assert holds[k].end <= holds[|holds| - 1].start;
      }
    }
  }
}

/** How long an assignment is active, and what is reported of it, over whole runs. */
module AssignmentTerms {
  import opened Wrappers
  import opened Coordination

  /** What is reported of a worker at a clock value. */
  function Reported(s: State, w: string, t: int, bump: bool): Option<(Assignment, HeartbeatState)> {
    Step(s, t, GetWorkerAssignment(w), bump).1.state
  }

  /** No heartbeat for this worker, no release by this executor and no unregistration of it. */
  predicate Undisturbed(op: Op, w: string, executorId: string) {
    match op
    case UpsertWorkerHeartbeat(worker, _, _, _, _, _) => worker != w
    case ReleaseWorkerHeartbeat(worker, executor, _) => worker != w || executor != executorId
    case UnregisterExecutor(executor) => executor != executorId
    case _ => true
  }

  lemma {:induction false} StaysStored(s: State, calls: seq<Call>, w: string, bump: bool)
    requires w in s.assignments
    requires forall call :: call in calls ==> Undisturbed(call.op, w, s.assignments[w].executorId)
    ensures Lookup(Run(s, calls, bump).assignments, w) == Some(s.assignments[w])
    decreases |calls|
  {
    if calls != [] {
      assert calls[0] in calls;
      StepAssignment(s, calls[0].now, calls[0].op, bump, w);
      StaysStored(Step(s, calls[0].now, calls[0].op, bump).0, calls[1..], w, bump);
    }
  }

  /**
   A heartbeat makes the worker's assignment its executor's, active for exactly `ttlMs` from then and stale after that,
   until the next heartbeat, a release by that executor or its unregistration. What the heartbeat brings is stored;
   `assignedAt` goes on from before unless the worker was unassigned or released, and older metadata is kept.
   */
  lemma HeartbeatLasts(s: State, now: int, op: Op, later: seq<Call>, bump: bool, t: int)
    requires op.UpsertWorkerHeartbeat?
    requires forall call :: call in later ==> Undisturbed(call.op, op.workerId, op.executorId)
    ensures var before := Reported(s, op.workerId, now, bump);
      var reported := Reported(Run(Step(s, now, op, bump).0, later, bump), op.workerId, t, bump);
      && reported.Some? && reported.value.1 == (if t < now + op.ttlMs then BeatActive else BeatStale)
      && reported.value.0.workerId == op.workerId && reported.value.0.jobId == op.jobId
      && reported.value.0.executorId == op.executorId && reported.value.0.repoPath == op.repoPath
      && reported.value.0.heartbeatAt == now && reported.value.0.releasedAt == None
      && reported.value.0.assignedAt == (if before.Some? && before.value.1 != BeatReleased
           then before.value.0.assignedAt else now)
      && (forall k :: k in op.metadata ==>
            k in reported.value.0.metadata && reported.value.0.metadata[k] == op.metadata[k])
      && (before.Some? ==> forall k :: k in before.value.0.metadata && k !in op.metadata ==>
            k in reported.value.0.metadata && reported.value.0.metadata[k] == before.value.0.metadata[k])
  {
    StaysStored(Step(s, now, op, bump).0, later, op.workerId, bump);
  }

  /** No heartbeat for this worker. */
  predicate NoHeartbeat(op: Op, w: string) {
    op.UpsertWorkerHeartbeat? ==> op.workerId != w
  }

  lemma {:induction false} StaysReleased(s: State, calls: seq<Call>, w: string, bump: bool)
    requires w in s.assignments && s.assignments[w].status == Released
    requires forall call :: call in calls ==> NoHeartbeat(call.op, w)
    ensures var after := Lookup(Run(s, calls, bump).assignments, w); after.Some? && after.value.status == Released
    decreases |calls|
  {
    if calls != [] {
      assert calls[0] in calls;
      StepAssignment(s, calls[0].now, calls[0].op, bump, w);
      StaysReleased(Step(s, calls[0].now, calls[0].op, bump).0, calls[1..], w, bump);
    }
  }

  predicate GivesReason(a: Assignment, reason: string) {
    "releaseReason" in a.metadata && a.metadata["releaseReason"] == reason
  }

  /**
   A release by the executor that has the worker, or its unregistration, is final until the next heartbeat; the one by
   anybody else changes nothing.
   */
  lemma ReleaseLasts(s: State, now: int, op: Op, w: string, executorId: string, reason: Option<string>,
      later: seq<Call>, bump: bool, t: int)
    requires op == ReleaseWorkerHeartbeat(w, executorId, reason) || op == UnregisterExecutor(executorId)
    requires forall call :: call in later ==> NoHeartbeat(call.op, w)
    ensures var before, after := Reported(s, w, now, bump), Reported(Step(s, now, op, bump).0, w, now, bump);
      if before.Some? && before.value.0.executorId == executorId
          then
            && after.Some? && after.value.1 == BeatReleased
            && (before.value.1 != BeatReleased ==> after.value.0.releasedAt == Some(now))
            && (op.ReleaseWorkerHeartbeat? && reason.Some? ==> GivesReason(after.value.0, reason.value))
            && (op.UnregisterExecutor? && before.value.1 != BeatReleased ==>
                  GivesReason(after.value.0, "executor_unregistered"))
            && var reported := Reported(Run(Step(s, now, op, bump).0, later, bump), w, t, bump);
               reported.Some? && reported.value.1 == BeatReleased
          else after == before
  {
    var next := Step(s, now, op, bump).0;
    StepAssignment(s, now, op, bump, w);
    if w in s.assignments && s.assignments[w].executorId == executorId {
      assert w in next.assignments && next.assignments[w].status == Released;
      StaysReleased(next, later, w, bump);
    }
  }

  /** The listing has, of each worker, what is reported of it alone, if that is active or was asked for. */
  lemma ListingIsByState(s: State, now: int, includeReleased: bool, includeStale: bool, bump: bool, w: string)
    ensures var listed := Step(s, now, Op.ListWorkerAssignments(includeReleased, includeStale), bump).1.assignments;
      var reported := Reported(s, w, now, bump);
      && (w in listed <==>
            && reported.Some?
            && (|| reported.value.1 == BeatActive
                || (reported.value.1 == BeatStale && includeStale)
                || (reported.value.1 == BeatReleased && includeReleased)))
      && (w in listed ==> listed[w] == reported.value)
  {
  }
}

/** What is reported of an executor, over whole runs. */
module ExecutorTerms {
  import opened Wrappers
  import opened Coordination

  /** What is reported of an executor at a clock value: its record, and whether it is stale. */
  function Reported(s: State, id: string, limit: int, t: int, bump: bool): Option<(Executor, bool)> {
    Step(s, t, GetExecutor(id, limit), bump).1.snapshot
  }

  /** No registration, heartbeat or unregistration of this executor. */
  predicate Silent(op: Op, id: string) {
    match op
    case RegisterExecutor(executor, _) => executor != id
    case HeartbeatExecutor(executor) => executor != id
    case UnregisterExecutor(executor) => executor != id
    case _ => true
  }

  lemma {:induction false} StaysAsReported(s: State, calls: seq<Call>, id: string, bump: bool)
    requires forall call :: call in calls ==> Silent(call.op, id)
    ensures Lookup(Run(s, calls, bump).executors, id) == Lookup(s.executors, id)
    decreases |calls|
  {
    if calls != [] {
      assert calls[0] in calls;
      StaysAsReported(Step(s, calls[0].now, calls[0].op, bump).0, calls[1..], id, bump);
    }
  }

  /**
   A registration, or the heartbeat of a known executor, keeps it from being stale for exactly `limit` from then. A
   registration counts one generation on and keeps the time of the first; both go back to the beginning once the
   executor has been unregistered.
   */
  lemma SignOfLifeLasts(s: State, now: int, op: Op, id: string, later: seq<Call>, limit: int, bump: bool, t: int)
    requires op == HeartbeatExecutor(id) || (op.RegisterExecutor? && op.executorId == id)
    requires forall call :: call in later ==> Silent(call.op, id)
    ensures var before := Reported(s, id, limit, now, bump);
      var reported := Reported(Run(Step(s, now, op, bump).0, later, bump), id, limit, t, bump);
      && (reported.None? <==> before.None? && op.HeartbeatExecutor?)
      && (reported.Some? ==>
            && reported.value.0.heartbeatAt == now && reported.value.1 == (t > now + limit)
            && reported.value.0.generation == (if before.Some? then before.value.0.generation else 0)
                 + (if op.RegisterExecutor? then 1 else 0)
            && reported.value.0.registeredAt == (if before.Some? then before.value.0.registeredAt else now))
      && (op.RegisterExecutor? ==>
            && reported.value.0.executorId == id && reported.value.0.profile.hostId == op.registration.hostId
            && reported.value.0.profile.metadata == op.registration.metadata
            && (reported.value.0.profile.sameSessionReattach <==> op.registration.sameSessionReattach == Some(true)))
      && (op.HeartbeatExecutor? && before.Some? ==> reported.value.0.profile == before.value.0.profile)
  {
    StaysAsReported(Step(s, now, op, bump).0, later, id, bump);
  }

  /** Roles and modes are registered as asked for; without any an executor schedules and works, in processes. */
  lemma ProfileMeans(s: State, now: int, id: string, r: Registration, bump: bool)
    ensures
      var registered := Step(s, now, RegisterExecutor(id, r), bump).1.executor;
      var anyRoles := r.roles.Some? && r.roles.value != [];
      var anyModes := r.executionModes.Some? && r.executionModes.value != [];
      && registered.Some?
      && (forall x :: x in registered.value.profile.roles <==>
            if anyRoles then x in r.roles.value else x == "scheduler" || x == "worker")
      && (forall x :: x in registered.value.profile.executionModes <==>
            if anyModes then x in r.executionModes.value else x == "process")
  {
    if r.roles.Some? {
      DistinctKeepsFirst(r.roles.value);
    }
    if r.executionModes.Some? {
      DistinctKeepsFirst(r.executionModes.value);
    }
  }

  /** An unregistered executor is unknown until it registers again. */
  lemma UnregisteredIsUnknown(s: State, now: int, id: string, later: seq<Call>, limit: int, bump: bool, t: int)
    requires forall call :: call in later ==> Silent(call.op, id)
    ensures Reported(Run(Step(s, now, UnregisterExecutor(id), bump).0, later, bump), id, limit, t, bump).None?
  {
    StaysAsReported(Step(s, now, UnregisterExecutor(id), bump).0, later, id, bump);
  }

  /** The listing has, of each executor, what is reported of it alone, if that is not stale or was asked for. */
  lemma ListingIsByStaleness(s: State, now: int, limit: int, includeStale: bool, bump: bool, id: string)
    ensures var listed := Step(s, now, ListExecutors(limit, includeStale), bump).1.executors;
      var reported := Reported(s, id, limit, now, bump);
      && (id in listed <==> reported.Some? && (includeStale || !reported.value.1))
      && (id in listed ==> listed[id] == reported.value)
  {
  }
}
