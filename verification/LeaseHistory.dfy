/**
 Whole-run properties of dispatch leases: who held a key, and when.

 A grant opens a hold at the clock value of the call; it ends at the lease's expiry, or earlier when its
 owner renews, releases or is unregistered. `Record` writes that history beside a run.
 */
module LeaseHistory {
  import opened Wrappers
  import opened Coordination
  import Fencing

  datatype Hold = Hold(ownerId: string, start: int, end: int, version: nat, acquiredAt: int)

  function Min(a: int, b: int): int {
    if a < b then a else b
  }

  /** Ends the latest hold now, unless it has already expired. */
  function CutLast(holds: seq<Hold>, now: int): seq<Hold> {
    if holds == [] then []
    else
      var last := holds[|holds| - 1];
      holds[..|holds| - 1] + [last.(end := Min(last.end, now))]
  }

  /** Does this call take the key away from its present owner, or replace the owner's own hold? */
  predicate Interrupts(lease: Option<Lease>, key: string, op: Op) {
    && lease.Some?
    && match op
       case AcquireLease(k, owner, _) => k == key && lease.value.ownerId == owner
       case ReleaseLease(k, owner) => k == key && lease.value.ownerId == owner
       case UnregisterExecutor(executor) => lease.value.ownerId == executor
       case _ => false
  }

  /** The hold a call opens: what `acquireLease` grants for this key. */
  function Opened(lease: Option<Lease>, key: string, call: Call): seq<Hold> {
    if call.op.AcquireLease? && call.op.leaseKey == key
    then
      var granted := NextLease(lease, key, call.op.ownerId, call.op.ttlMs, call.now);
      if granted.Some?
      then [Hold(call.op.ownerId, call.now, granted.value.expiresAt, granted.value.version, granted.value.acquiredAt)]
      else []
    else []
  }

  /** The history of one key after a call made while `lease` is stored for it. */
  function Record(holds: seq<Hold>, lease: Option<Lease>, key: string, call: Call): seq<Hold> {
    (if Interrupts(lease, key, call.op) then CutLast(holds, call.now) else holds) + Opened(lease, key, call)
  }

  /** The history of one key along a run of a coordinator. */
  function History(holds: seq<Hold>, s: State, key: string, calls: seq<Call>, bump: bool): seq<Hold>
    decreases |calls|
  {
    if calls == [] then holds
    else History(Record(holds, Lookup(s.leases, key), key, calls[0]),
                 Step(s, calls[0].now, calls[0].op, bump).0, key, calls[1..], bump)
  }

  /** Holds follow one another in time: each ends before any later one starts. */
  ghost predicate InOrder(holds: seq<Hold>) {
    forall i, j :: 0 <= i < j < |holds| ==> holds[i].end <= holds[j].start
  }

  /** Every hold opens a tenure with version 1, or continues its owner's tenure with the next version. */
  ghost predicate TenureAt(holds: seq<Hold>, k: nat)
    requires k < |holds|
  {
    || (holds[k].version == 1 && holds[k].acquiredAt == holds[k].start)
    || (k > 0 && holds[k].version > 1 && holds[k].version == holds[k - 1].version + 1
        && holds[k - 1].ownerId == holds[k].ownerId && holds[k].acquiredAt == holds[k - 1].acquiredAt)
  }

  ghost predicate Tenures(holds: seq<Hold>) {
    forall k :: 0 <= k < |holds| ==> TenureAt(holds, k)
  }

  /** The history and the stored lease agree on the present. */
  ghost predicate Current(holds: seq<Hold>, stored: Option<Lease>, key: string, now: int) {
    && (forall k :: 0 <= k < |holds| ==> holds[k].start <= now)
    && match stored
       case Some(lease) =>
         && holds != []
         && holds[|holds| - 1] == Hold(lease.ownerId, lease.heartbeatAt, lease.expiresAt, lease.version,
              lease.acquiredAt)
         && lease.version >= 1
         && lease.fencingToken == Fencing.LeaseToken(key, lease.ownerId, lease.version)
       case None => holds != [] ==> holds[|holds| - 1].end <= now
  }

  ghost predicate Good(holds: seq<Hold>, stored: Option<Lease>, key: string, now: int) {
    InOrder(holds) && Tenures(holds) && Current(holds, stored, key, now)
  }

  lemma CutLastKeeps(holds: seq<Hold>, now: int)
    requires InOrder(holds) && Tenures(holds)
    ensures var cut := CutLast(holds, now);
      && InOrder(cut) && Tenures(cut) && |cut| == |holds|
      && (forall k :: 0 <= k < |holds| ==> cut[k] == holds[k].(end := cut[k].end) && cut[k].end <= holds[k].end)
      && (holds != [] ==> cut[|cut| - 1].end <= now)
  {
    var cut := CutLast(holds, now);
    forall k | 0 <= k < |cut| ensures TenureAt(cut, k) {
      assert TenureAt(holds, k);
    }
  }

  lemma RecordKeepsGood(holds: seq<Hold>, stored: Option<Lease>, key: string, from: int, call: Call)
    requires Good(holds, stored, key, from) && from <= call.now
    ensures Good(Record(holds, stored, key, call), LeaseAfter(stored, key, call.now, call.op), key, call.now)
  {
    CutLastKeeps(holds, call.now);
    var cut := if Interrupts(stored, key, call.op) then CutLast(holds, call.now) else holds;
    if Opened(stored, key, call) != [] {
      OpenKeepsGood(cut, stored, key, call);
    } else {
      assert Record(holds, stored, key, call) == cut;
      if Interrupts(stored, key, call.op) {
        assert LeaseAfter(stored, key, call.now, call.op) == None;
      }
    }
  }

  /** A hold opened after the latest one has ended keeps order and tenures. */
  lemma OpenKeepsGood(cut: seq<Hold>, stored: Option<Lease>, key: string, call: Call)
    requires InOrder(cut) && Tenures(cut) && Opened(stored, key, call) != []
    requires forall k :: 0 <= k < |cut| ==> cut[k].start <= call.now
    requires cut != [] ==> cut[|cut| - 1].end <= call.now
    requires stored.Some? && stored.value.ownerId == call.op.ownerId ==>
      && cut != [] && stored.value.version >= 1
      && cut[|cut| - 1].ownerId == stored.value.ownerId && cut[|cut| - 1].version == stored.value.version
      && cut[|cut| - 1].acquiredAt == stored.value.acquiredAt
    ensures Good(cut + Opened(stored, key, call), LeaseAfter(stored, key, call.now, call.op), key, call.now)
  {
    var hold := Opened(stored, key, call)[0];
    var holds := cut + [hold];
    forall i | 0 <= i < |cut| ensures holds[i].end <= hold.start {
      assert i < |cut| - 1 ==> cut[i].end <= cut[|cut| - 1].start;
    }
    forall k | 0 <= k < |holds| ensures TenureAt(holds, k) {
      if k < |cut| {
        assert TenureAt(cut, k);
      }
    }
  }

  lemma {:induction false} HistoryGood(holds: seq<Hold>, s: State, key: string, from: int, calls: seq<Call>, bump: bool)
    requires Good(holds, Lookup(s.leases, key), key, from) && ClockFrom(from, calls)
    ensures Good(History(holds, s, key, calls, bump), Lookup(Run(s, calls, bump).leases, key), key,
            ClockAfter(from, calls))
    decreases |calls|
  {
    if calls != [] {
      RecordKeepsGood(holds, Lookup(s.leases, key), key, from, calls[0]);
      StepLease(s, calls[0].now, calls[0].op, bump, key);
      HistoryGood(Record(holds, Lookup(s.leases, key), key, calls[0]),
                  Step(s, calls[0].now, calls[0].op, bump).0, key, calls[0].now, calls[1..], bump);
    }
  }

  predicate HeldBy(holds: seq<Hold>, owner: string, t: int) {
    exists k :: 0 <= k < |holds| && holds[k].ownerId == owner && holds[k].start <= t < holds[k].end
  }

  /** Mutual exclusion: over any run whose clock never runs backwards, no instant has two owners of one key. */
  lemma AtMostOneHolder(key: string, from: int, calls: seq<Call>, bump: bool, a: string, b: string, t: int)
    requires ClockFrom(from, calls)
    requires HeldBy(History([], INITIAL, key, calls, bump), a, t)
    requires HeldBy(History([], INITIAL, key, calls, bump), b, t)
    ensures a == b
  {
    HistoryGood([], INITIAL, key, from, calls, bump);
    var holds := History([], INITIAL, key, calls, bump);
    var i :| 0 <= i < |holds| && holds[i].ownerId == a && holds[i].start <= t < holds[i].end;
    var j :| 0 <= j < |holds| && holds[j].ownerId == b && holds[j].start <= t < holds[j].end;
    assert i == j;
  }

  /** The history is the coordinator's: the one that holds the key now is the owner of the stored, unexpired lease. */
  lemma HolderIsStoredOwner(key: string, from: int, calls: seq<Call>, bump: bool, owner: string, now: int)
    requires ClockFrom(from, calls) && ClockAfter(from, calls) <= now
    ensures var leases := Run(INITIAL, calls, bump).leases;
      HeldBy(History([], INITIAL, key, calls, bump), owner, now) <==>
      key in leases && leases[key].ownerId == owner && leases[key].heartbeatAt <= now
          && !Expired(leases[key].expiresAt, now)
  {
    HistoryGood([], INITIAL, key, from, calls, bump);
    var holds := History([], INITIAL, key, calls, bump);
    var leases := Run(INITIAL, calls, bump).leases;
    if key in leases && leases[key].ownerId == owner && !Expired(leases[key].expiresAt, now) {
      assert holds[|holds| - 1].ownerId == owner;
    }
    if HeldBy(holds, owner, now) {
      var k :| 0 <= k < |holds| && holds[k].ownerId == owner && holds[k].start <= now < holds[k].end;
      assert k == |holds| - 1;
    }
  }

  /** Tenures: versions run 1, 2, 3, ... with a fixed acquiredAt until a hold starts again at version 1. */
  lemma VersionsCountTenure(key: string, from: int, calls: seq<Call>, bump: bool)
    requires ClockFrom(from, calls)
    ensures Tenures(History([], INITIAL, key, calls, bump)) && InOrder(History([], INITIAL, key, calls, bump))
  {
    HistoryGood([], INITIAL, key, from, calls, bump);
  }

  lemma HistoryCons(holds: seq<Hold>, s: State, key: string, call: Call, rest: seq<Call>, bump: bool)
    ensures History(holds, s, key, [call] + rest, bump) ==
            History(Record(holds, Lookup(s.leases, key), key, call), Step(s, call.now, call.op, bump).0, key, rest,
                bump)
  {
    assert ([call] + rest)[1..] == rest;
  }

  /**
   Without the monotone clock exclusion fails: `b` is granted the key at time 0, inside the hold `a` had from
   time 0 to 10, because its takeover was judged at time 10 and its renewal later read time 0.
   */
  lemma ExclusionNeedsTheClock() returns (calls: seq<Call>)
    ensures HeldBy(History([], INITIAL, "k", calls, false), "a", 5)
            && HeldBy(History([], INITIAL, "k", calls, false), "b", 5)
  {
    var first, second, third := Call(0, AcquireLease("k", "a", 10)), Call(10, AcquireLease("k", "b", 10)),
        Call(0, AcquireLease("k", "b", 10));
    var tail: seq<Call> := [third] + [];
    calls := [first] + ([second] + tail);
    var s1, h1 := Step(INITIAL, 0, first.op, false).0, [Hold("a", 0, 10, 1, 0)];
    HistoryCons([], INITIAL, "k", first, [second] + tail, false);
    assert Record([], None, "k", first) == h1;
    var s2, h2 := Step(s1, 10, second.op, false).0, [Hold("a", 0, 10, 1, 0), Hold("b", 10, 20, 1, 10)];
    HistoryCons(h1, s1, "k", second, tail, false);
    assert Record(h1, Lookup(s1.leases, "k"), "k", second) == h2;
    var s3, h3 := Step(s2, 0, third.op, false).0, [Hold("a", 0, 10, 1, 0), Hold("b", 10, 0, 1, 10),
        Hold("b", 0, 10, 2, 10)];
    HistoryCons(h2, s2, "k", third, [], false);
    assert Record(h2, Lookup(s2.leases, "k"), "k", third) == h3;
    assert History([], INITIAL, "k", calls, false) == h3;
    assert h3[0].ownerId == "a" && h3[2].ownerId == "b";
  }

  /**
   Lease tokens are not fencing tokens across owners: a grant over a stored lease carries a token above the stored
   one exactly when the owner renews.
   */
  lemma LeaseTokenGrowsIffRenewed(stored: Lease, holds: seq<Hold>, key: string, owner: string, ttlMs: int, now: int)
    requires Current(holds, Some(stored), key, now) && NextLease(Some(stored), key, owner, ttlMs, now).Some?
    ensures var granted := NextLease(Some(stored), key, owner, ttlMs, now).value;
      Fencing.Compare(Some(stored.fencingToken), Some(granted.fencingToken)) < 0 <==> stored.ownerId == owner
  {
    var granted := NextLease(Some(stored), key, owner, ttlMs, now).value;
    Fencing.LeaseTokenVersion(key, stored.ownerId, stored.version);
    Fencing.LeaseTokenVersion(key, owner, granted.version);
  }
}
