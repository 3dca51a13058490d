/**
 What a dispatch queue is: jobs in the order of their last enqueue, at most one entry per job id, listed by
 priority and, within a priority, in that order.
 */
module QueueSpec {
  import opened Wrappers
  import opened Models

  function Remove(q: seq<Job>, jobId: JobId): seq<Job> {
    if q == [] then []
    else if q[0].jobId == jobId then Remove(q[1..], jobId)
    else [q[0]] + Remove(q[1..], jobId)
  }

  function Enqueue(q: seq<Job>, job: Job): seq<Job> {
    Remove(q, job.jobId) + [job]
  }

  function OfPriority(q: seq<Job>, p: Priority): seq<Job> {
    if q == [] then []
    else (if q[0].priority == p then [q[0]] else []) + OfPriority(q[1..], p)
  }

  /** The order in which the queue lists and serves its jobs. */
  function Listed(q: seq<Job>): seq<Job> {
    OfPriority(q, High) + OfPriority(q, Normal) + OfPriority(q, Low)
  }

  predicate Holds(q: seq<Job>, jobId: JobId) {
    exists i :: 0 <= i < |q| && q[i].jobId == jobId
  }

  predicate OnePerId(q: seq<Job>) {
    forall i, j :: 0 <= i < j < |q| ==> q[i].jobId != q[j].jobId
  }

  datatype Op = EnqueueOp(job: Job) | DequeueOp | PeekOp | RemoveOp(jobId: JobId) | SizeOp | ListOp

  datatype Reply =
    Done | JobReply(job: Option<Job>) | BoolReply(removed: bool) | SizeReply(size: nat) | ListReply(jobs: seq<Job>)

  function First(q: seq<Job>): Option<Job> {
    if Listed(q) == [] then None else Some(Listed(q)[0])
  }

  function Step(q: seq<Job>, op: Op): (seq<Job>, Reply) {
    match op
    case EnqueueOp(job) => (Enqueue(q, job), Done)
    case DequeueOp => (match First(q) case Some(job) => Remove(q, job.jobId) case None => q, JobReply(First(q)))
    case PeekOp => (q, JobReply(First(q)))
    case RemoveOp(jobId) => (Remove(q, jobId), BoolReply(Holds(q, jobId)))
    case SizeOp => (q, SizeReply(|q|))
    case ListOp => (q, ListReply(Listed(q)))
  }

  function Run(q: seq<Job>, ops: seq<Op>): seq<Job>
    decreases |ops|
  {
    if ops == [] then q else Run(Step(q, ops[0]).0, ops[1..])
  }

  function Replies(q: seq<Job>, ops: seq<Op>): seq<Reply>
    decreases |ops|
  {
    if ops == [] then [] else [Step(q, ops[0]).1] + Replies(Step(q, ops[0]).0, ops[1..])
  }

  lemma {:induction false} RemoveKeepsOthers(q: seq<Job>, jobId: JobId)
    ensures forall j :: j in Remove(q, jobId) <==> j in q && j.jobId != jobId
    ensures OnePerId(q) ==> OnePerId(Remove(q, jobId))
    ensures |Remove(q, jobId)| <= |q|
  {
    if q != [] {
      RemoveKeepsOthers(q[1..], jobId);
      if q[0].jobId != jobId && OnePerId(q) {
        forall i | 0 <= i < |Remove(q[1..], jobId)| ensures Remove(q[1..], jobId)[i].jobId != q[0].jobId {
          assert Remove(q[1..], jobId)[i] in q[1..];
        }
      }
    }
  }

  lemma RemovedIsGone(q: seq<Job>, jobId: JobId)
    ensures !Holds(Remove(q, jobId), jobId)
  {
    RemoveKeepsOthers(q, jobId);
    assert forall i :: 0 <= i < |Remove(q, jobId)| ==> Remove(q, jobId)[i] in Remove(q, jobId);
  }

  lemma RemoveHolds(q: seq<Job>, jobId: JobId, k: JobId)
    ensures Holds(Remove(q, jobId), k) <==> Holds(q, k) && k != jobId
  {
    RemoveKeepsOthers(q, jobId);
    if Holds(q, k) && k != jobId {
      var i :| 0 <= i < |q| && q[i].jobId == k;
      assert q[i] in Remove(q, jobId);
    }
    if Holds(Remove(q, jobId), k) {
      var i :| 0 <= i < |Remove(q, jobId)| && Remove(q, jobId)[i].jobId == k;
      assert Remove(q, jobId)[i] in q;
    }
  }

  lemma EnqueueHolds(q: seq<Job>, job: Job, k: JobId)
    ensures Holds(Enqueue(q, job), k) <==> Holds(q, k) || k == job.jobId
  {
    RemoveHolds(q, job.jobId, k);
    var rest := Remove(q, job.jobId);
    assert Enqueue(q, job)[|rest|] == job;
    if Holds(rest, k) {
      var i :| 0 <= i < |rest| && rest[i].jobId == k;
      assert Enqueue(q, job)[i].jobId == k;
    }
  }

  lemma QueueStepKeepsOnePerId(q: seq<Job>, op: Op)
    requires OnePerId(q)
    ensures OnePerId(Step(q, op).0)
  {
    if op.EnqueueOp? {
      RemoveKeepsOthers(q, op.job.jobId);
      assert forall i :: 0 <= i < |Remove(q, op.job.jobId)| ==> Remove(q, op.job.jobId)[i] in Remove(q, op.job.jobId);
    } else if op.RemoveOp? {
      RemoveKeepsOthers(q, op.jobId);
    } else if op.DequeueOp? && First(q).Some? {
      RemoveKeepsOthers(q, First(q).value.jobId);
    }
  }

  /** Removing a job by the index it is found at. */
  lemma {:induction false} RemoveIsSplice(q: seq<Job>, index: nat)
    requires OnePerId(q) && index < |q|
    ensures Remove(q, q[index].jobId) == q[..index] + q[index + 1..]
  {
    if index == 0 {
      RemoveAbsent(q[1..], q[0].jobId);
    } else {
      RemoveIsSplice(q[1..], index - 1);
      assert q[1..][..index - 1] == q[1..index] && q[1..][index..] == q[index + 1..];
      assert q[..index] == [q[0]] + q[1..index];
    }
  }

  lemma {:induction false} RemoveAbsent(q: seq<Job>, jobId: JobId)
    requires !Holds(q, jobId)
    ensures Remove(q, jobId) == q
  {
    if q != [] {
      assert q[0].jobId != jobId;
      forall i | 0 <= i < |q[1..]| ensures q[1..][i].jobId != jobId { assert q[1..][i] == q[i + 1]; }
      RemoveAbsent(q[1..], jobId);
    }
  }

  lemma {:induction false} OfPriorityMembers(q: seq<Job>, p: Priority)
    ensures forall j :: j in OfPriority(q, p) <==> j in q && j.priority == p
  {
    if q != [] {
      OfPriorityMembers(q[1..], p);
    }
  }

  lemma ListedMembers(q: seq<Job>)
    ensures forall j :: j in Listed(q) <==> j in q
  {
    OfPriorityMembers(q, High);
    OfPriorityMembers(q, Normal);
    OfPriorityMembers(q, Low);
  }

  lemma {:induction false} OfPriorityPartition(q: seq<Job>)
    ensures multiset(OfPriority(q, High)) + multiset(OfPriority(q, Normal)) + multiset(OfPriority(q, Low)) ==
            multiset(q)
  {
    if q != [] {
      OfPriorityPartition(q[1..]);
      assert q == [q[0]] + q[1..];
    }
  }

  lemma {:induction false} OfPriorityKeepsOrder(q: seq<Job>, p: Priority, i: nat, j: nat) returns (a: nat, b: nat)
    requires i < j < |q| && q[i].priority == p && q[j].priority == p
    ensures a < b < |OfPriority(q, p)| && OfPriority(q, p)[a] == q[i] && OfPriority(q, p)[b] == q[j]
  {
    if i == 0 {
      a := 0;
      OfPriorityMembers(q[1..], p);
      assert q[j] in q[1..];
      var k :| 0 <= k < |OfPriority(q[1..], p)| && OfPriority(q[1..], p)[k] == q[j];
      b := k + 1;
    } else {
      a, b := OfPriorityKeepsOrder(q[1..], p, i - 1, j - 1);
      if q[0].priority == p {
        a, b := a + 1, b + 1;
      }
    }
  }

  /** Where the jobs of one priority start in the listing. */
  function Offset(q: seq<Job>, p: Priority): nat {
    match p
    case High => 0
    case Normal => |OfPriority(q, High)|
    case Low => |OfPriority(q, High)| + |OfPriority(q, Normal)|
  }

  lemma ListedAt(q: seq<Job>, p: Priority, a: nat)
    requires a < |OfPriority(q, p)|
    ensures Offset(q, p) + a < |Listed(q)| && Listed(q)[Offset(q, p) + a] == OfPriority(q, p)[a]
  {
  }

  lemma ListedIsPermutation(q: seq<Job>)
    ensures multiset(Listed(q)) == multiset(q)
  {
    OfPriorityPartition(q);
  }

  lemma PlaceOf(q: seq<Job>, i: nat) returns (a: nat)
    requires i < |q|
    ensures a < |OfPriority(q, q[i].priority)| && OfPriority(q, q[i].priority)[a] == q[i]
  {
    OfPriorityMembers(q, q[i].priority);
    assert q[i] in OfPriority(q, q[i].priority);
    a :| 0 <= a < |OfPriority(q, q[i].priority)| && OfPriority(q, q[i].priority)[a] == q[i];
  }

  /** A job stands in the listing before another if its priority is higher, or equal and it was enqueued earlier. */
  lemma StandsBefore(q: seq<Job>, i: nat, j: nat) returns (a: nat, b: nat)
    requires i < |q| && j < |q|
    requires Weight(q[i].priority) > Weight(q[j].priority) || (q[i].priority == q[j].priority && i < j)
    ensures a < b < |Listed(q)| && Listed(q)[a] == q[i] && Listed(q)[b] == q[j]
  {
    var p, r := q[i].priority, q[j].priority;
    if p == r {
      a, b := OfPriorityKeepsOrder(q, p, i, j);
    } else {
      a := PlaceOf(q, i);
      b := PlaceOf(q, j);
      assert Offset(q, p) + |OfPriority(q, p)| <= Offset(q, r);
    }
    ListedAt(q, p, a);
    ListedAt(q, r, b);
    a, b := Offset(q, p) + a, Offset(q, r) + b;
  }

  /** The listing is the stable sort by priority: a permutation, ordered by priority and then by time of enqueue. */
  lemma ListedIsStableSort(q: seq<Job>, i: nat, j: nat) returns (a: nat, b: nat)
    requires i < |q| && j < |q|
    requires Weight(q[i].priority) > Weight(q[j].priority) || (q[i].priority == q[j].priority && i < j)
    ensures multiset(Listed(q)) == multiset(q)
    ensures a < b < |Listed(q)| && Listed(q)[a] == q[i] && Listed(q)[b] == q[j]
  {
    a, b := StandsBefore(q, i, j);
    ListedIsPermutation(q);
  }
}

/** The listing has one entry per job id too. */
module QueueListing {
  import opened Models
  import opened QueueSpec

  lemma {:induction false} OfPriorityDistinct(q: seq<Job>, p: Priority)
    requires OnePerId(q)
    ensures OnePerId(OfPriority(q, p))
  {
    if q != [] {
      OfPriorityDistinct(q[1..], p);
      OfPriorityMembers(q[1..], p);
      var rest := OfPriority(q[1..], p);
      forall k | 0 <= k < |rest| ensures rest[k].jobId != q[0].jobId {
        assert rest[k] in q[1..];
      }
    }
  }

  lemma SameIdSameJob(q: seq<Job>, a: Job, b: Job)
    requires OnePerId(q) && a in q && b in q && a.jobId == b.jobId
    ensures a == b
  {
  }

  lemma ListedDistinct(q: seq<Job>)
    requires OnePerId(q)
    ensures OnePerId(Listed(q))
  {
    OfPriorityDistinct(q, High);
    OfPriorityDistinct(q, Normal);
    OfPriorityDistinct(q, Low);
    DisjointConcat(q, OfPriority(q, High), OfPriority(q, Normal), High, Normal);
    OfPriorityMembers(q, High);
    OfPriorityMembers(q, Normal);
    OfPriorityMembers(q, Low);
    var front := OfPriority(q, High) + OfPriority(q, Normal);
    forall i, j | 0 <= i < |front| && 0 <= j < |OfPriority(q, Low)|
      ensures front[i].jobId != OfPriority(q, Low)[j].jobId
    {
      assert front[i] in front && OfPriority(q, Low)[j] in OfPriority(q, Low);
      if front[i].jobId == OfPriority(q, Low)[j].jobId {
        SameIdSameJob(q, front[i], OfPriority(q, Low)[j]);
      }
    }
  }

  lemma DisjointConcat(q: seq<Job>, a: seq<Job>, b: seq<Job>, p: Priority, r: Priority)
    requires OnePerId(q) && a == OfPriority(q, p) && b == OfPriority(q, r) && p != r && OnePerId(a) && OnePerId(b)
    ensures OnePerId(a + b)
  {
    OfPriorityMembers(q, p);
    OfPriorityMembers(q, r);
    forall i, j | 0 <= i < |a| && 0 <= j < |b| ensures a[i].jobId != b[j].jobId {
      assert a[i] in a && b[j] in b;
      if a[i].jobId == b[j].jobId {
        SameIdSameJob(q, a[i], b[j]);
      }
    }
  }

  lemma ListedHolds(q: seq<Job>, k: JobId)
    ensures Holds(Listed(q), k) <==> Holds(q, k)
  {
    ListedMembers(q);
    if Holds(q, k) {
      var i :| 0 <= i < |q| && q[i].jobId == k;
      assert q[i] in Listed(q);
    }
    if Holds(Listed(q), k) {
      var i :| 0 <= i < |Listed(q)| && Listed(q)[i].jobId == k;
      assert Listed(q)[i] in q;
    }
  }
}

/** What comes out of a queue that is emptied. */
module QueueDraining {
  import opened Wrappers
  import opened Models
  import opened QueueSpec
  import opened QueueListing

  lemma {:induction false} RemoveOfConcat(a: seq<Job>, b: seq<Job>, jobId: JobId)
    ensures Remove(a + b, jobId) == Remove(a, jobId) + Remove(b, jobId)
  {
    if a == [] {
      assert a + b == b;
    } else {
      assert (a + b)[1..] == a[1..] + b;
      RemoveOfConcat(a[1..], b, jobId);
    }
  }

  lemma {:induction false} OfPriorityOfRemoved(q: seq<Job>, jobId: JobId, p: Priority)
    ensures OfPriority(Remove(q, jobId), p) == Remove(OfPriority(q, p), jobId)
  {
    if q != [] {
      OfPriorityOfRemoved(q[1..], jobId, p);
      var head := if q[0].priority == p then [q[0]] else [];
      RemoveOfConcat(head, OfPriority(q[1..], p), jobId);
      assert head != [] ==> head[1..] == [];
      assert Remove(head, jobId) == if q[0].jobId == jobId then [] else head;
      if q[0].jobId != jobId {
        assert Remove(q, jobId)[1..] == Remove(q[1..], jobId);
      }
    }
  }

  /** Taking a job out of the queue takes it out of the listing. */
  lemma ListedOfRemoved(q: seq<Job>, jobId: JobId)
    ensures Listed(Remove(q, jobId)) == Remove(Listed(q), jobId)
  {
    OfPriorityOfRemoved(q, jobId, High);
    OfPriorityOfRemoved(q, jobId, Normal);
    OfPriorityOfRemoved(q, jobId, Low);
    RemoveOfConcat(OfPriority(q, High) + OfPriority(q, Normal), OfPriority(q, Low), jobId);
    RemoveOfConcat(OfPriority(q, High), OfPriority(q, Normal), jobId);
  }

  lemma DequeueTakesFirst(q: seq<Job>)
    requires OnePerId(q) && Listed(q) != []
    ensures var (rest, reply) := Step(q, DequeueOp);
      && reply == JobReply(Some(Listed(q)[0])) && Listed(rest) == Listed(q)[1..] && OnePerId(rest)
  {
    ListedDistinct(q);
    ListedOfRemoved(q, Listed(q)[0].jobId);
    RemoveIsSplice(Listed(q), 0);
    QueueStepKeepsOnePerId(q, DequeueOp);
  }

  function Dequeues(n: nat): seq<Op> {
    if n == 0 then [] else [DequeueOp] + Dequeues(n - 1)
  }

  function Answers(jobs: seq<Job>): seq<Reply> {
    if jobs == [] then [] else [JobReply(Some(jobs[0]))] + Answers(jobs[1..])
  }

  /** Dequeuing as often as there are jobs gives them in the order they are listed, and nothing is left. */
  lemma {:induction false} DrainsAsListed(q: seq<Job>)
    requires OnePerId(q)
    ensures Replies(q, Dequeues(|Listed(q)|)) == Answers(Listed(q))
    ensures Listed(Run(q, Dequeues(|Listed(q)|))) == []
    decreases |Listed(q)|
  {
    if Listed(q) != [] {
      DequeueTakesFirst(q);
      DrainsAsListed(Step(q, DequeueOp).0);
      assert Dequeues(|Listed(q)|)[1..] == Dequeues(|Listed(q)| - 1);
    }
  }

  /** High priority is served before normal and normal before low; within a priority, earlier enqueued first. */
  lemma ServedBefore(q: seq<Job>, i: nat, j: nat) returns (a: nat, b: nat)
    requires i < |q| && j < |q|
    requires
      || (q[i].priority == High && q[j].priority != High)
      || (q[i].priority == Normal && q[j].priority == Low)
      || (q[i].priority == q[j].priority && i < j)
    ensures a < b < |Listed(q)| == |q| && Listed(q)[a] == q[i] && Listed(q)[b] == q[j]
  {
    a, b := ListedIsStableSort(q, i, j);
    assert |multiset(Listed(q))| == |multiset(q)|;
  }
}

/** Entries with sequence numbers, and the order in which both implementations read them back. */
module QueueEntries {
  import opened Models
  import opened QueueSpec

  datatype Entry = Entry(job: Job, sequence: int)

  /** The comparator: priority descending, then sequence ascending. */
  predicate Before(a: Entry, b: Entry) {
    || Weight(a.job.priority) > Weight(b.job.priority)
    || (a.job.priority == b.job.priority && a.sequence < b.sequence)
  }

  function Jobs(entries: seq<Entry>): (jobs: seq<Job>)
    ensures |jobs| == |entries| && forall i :: 0 <= i < |jobs| ==> jobs[i] == entries[i].job
  {
    seq(|entries|, i requires 0 <= i < |entries| => entries[i].job)
  }

  ghost predicate Sorted(entries: seq<Entry>) {
    forall i, j :: 0 <= i < j < |entries| ==> Before(entries[i], entries[j])
  }

  ghost predicate Increasing(entries: seq<Entry>) {
    forall i, j :: 0 <= i < j < |entries| ==> entries[i].sequence < entries[j].sequence
  }

  ghost predicate DistinctSequences(entries: seq<Entry>) {
    forall i, j :: 0 <= i < j < |entries| ==> entries[i].sequence != entries[j].sequence
  }

  function Insert(e: Entry, sorted: seq<Entry>): seq<Entry> {
    if sorted == [] || Before(e, sorted[0]) then [e] + sorted else [sorted[0]] + Insert(e, sorted[1..])
  }

  /** Sorting by the comparator. */
  function Sort(entries: seq<Entry>): seq<Entry> {
    if entries == [] then [] else Insert(entries[0], Sort(entries[1..]))
  }

  lemma {:induction false} InsertSorted(e: Entry, sorted: seq<Entry>)
    requires Sorted(sorted) && forall s :: s in sorted ==> s.sequence != e.sequence
    ensures Sorted(Insert(e, sorted))
    ensures forall s :: s in Insert(e, sorted) <==> s == e || s in sorted
  {
    if sorted != [] && !Before(e, sorted[0]) {
      InsertSorted(e, sorted[1..]);
      var rest := Insert(e, sorted[1..]);
      forall k | 0 <= k < |rest| ensures Before(sorted[0], rest[k]) {
        assert rest[k] == e || rest[k] in sorted[1..];
      }
    }
  }

  lemma {:induction false} SortSorts(entries: seq<Entry>)
    requires DistinctSequences(entries)
    ensures Sorted(Sort(entries)) && forall s :: s in Sort(entries) <==> s in entries
  {
    if entries != [] {
      SortSorts(entries[1..]);
      InsertSorted(entries[0], Sort(entries[1..]));
    }
  }

  lemma HasMember(ys: seq<Entry>)
    requires ys != []
    ensures exists e :: e in ys
  {
    assert ys[0] in ys;
  }

  /** There is only one way to arrange the same entries in this order. */
  lemma {:induction false} SortedUnique(xs: seq<Entry>, ys: seq<Entry>)
    requires Sorted(xs) && Sorted(ys) && forall e :: e in xs <==> e in ys
    ensures xs == ys
  {
    if xs == [] {
      if ys != [] {
        HasMember(ys);
      }
    } else {
      assert xs[0] in ys && ys[0] in xs;
      assert xs[0] == ys[0];
      forall e ensures e in xs[1..] <==> e in ys[1..] {
        assert e in xs[1..] <==> e in xs && e != xs[0];
        assert e in ys[1..] <==> e in ys && e != ys[0];
      }
      SortedUnique(xs[1..], ys[1..]);
    }
  }

  function OfPriorityEntries(entries: seq<Entry>, p: Priority): seq<Entry> {
    if entries == [] then []
    else (if entries[0].job.priority == p then [entries[0]] else []) + OfPriorityEntries(entries[1..], p)
  }

  lemma {:induction false} OfPriorityEntriesMembers(entries: seq<Entry>, p: Priority)
    ensures forall e :: e in OfPriorityEntries(entries, p) <==> e in entries && e.job.priority == p
  {
    if entries != [] {
      OfPriorityEntriesMembers(entries[1..], p);
    }
  }

  lemma {:induction false} OfPriorityEntriesIncrease(entries: seq<Entry>, p: Priority)
    requires Increasing(entries)
    ensures Increasing(OfPriorityEntries(entries, p))
  {
    if entries != [] {
      OfPriorityEntriesIncrease(entries[1..], p);
      OfPriorityEntriesMembers(entries[1..], p);
      var rest := OfPriorityEntries(entries[1..], p);
      forall k | 0 <= k < |rest| ensures entries[0].sequence < rest[k].sequence {
        assert rest[k] in entries[1..];
      }
    }
  }

  lemma {:induction false} OfPriorityEntriesJobs(entries: seq<Entry>, p: Priority)
    ensures Jobs(OfPriorityEntries(entries, p)) == OfPriority(Jobs(entries), p)
  {
    if entries != [] {
      OfPriorityEntriesJobs(entries[1..], p);
      assert Jobs(entries)[1..] == Jobs(entries[1..]);
    }
  }

  lemma JobsConcat(a: seq<Entry>, b: seq<Entry>)
    ensures Jobs(a + b) == Jobs(a) + Jobs(b)
  {
  }

  lemma ConcatSorted(a: seq<Entry>, b: seq<Entry>)
    requires Sorted(a) && Sorted(b) && forall x, y :: x in a && y in b ==> Before(x, y)
    ensures Sorted(a + b)
  {
    forall i, j | 0 <= i < j < |a + b| ensures Before((a + b)[i], (a + b)[j]) {
      if i < |a| <= j {
        assert a[i] in a && b[j - |a|] in b;
      }
    }
  }

  lemma OnePrioritySorted(entries: seq<Entry>, p: Priority)
    requires Increasing(entries)
    ensures Sorted(OfPriorityEntries(entries, p))
    ensures forall e :: e in OfPriorityEntries(entries, p) <==> e in entries && e.job.priority == p
  {
    OfPriorityEntriesMembers(entries, p);
    OfPriorityEntriesIncrease(entries, p);
    var own := OfPriorityEntries(entries, p);
    forall i, j | 0 <= i < j < |own| ensures Before(own[i], own[j]) {
      assert own[i] in own && own[j] in own;
    }
  }

  lemma CanonicalSorted(entries: seq<Entry>)
    requires Increasing(entries)
    ensures
      var high, normal := OfPriorityEntries(entries, High), OfPriorityEntries(entries, Normal);
      var canonical := high + normal + OfPriorityEntries(entries, Low);
      Sorted(canonical) && forall e :: e in canonical <==> e in entries
  {
    OnePrioritySorted(entries, High);
    OnePrioritySorted(entries, Normal);
    OnePrioritySorted(entries, Low);
    ConcatSorted(OfPriorityEntries(entries, High), OfPriorityEntries(entries, Normal));
    ConcatSorted(OfPriorityEntries(entries, High) + OfPriorityEntries(entries, Normal),
        OfPriorityEntries(entries, Low));
  }

  /** Entries sorted by the comparator list their jobs as the queue should. */
  lemma SortedListsJobs(sorted: seq<Entry>, entries: seq<Entry>)
    requires Sorted(sorted) && Increasing(entries) && forall e :: e in sorted <==> e in entries
    ensures Jobs(sorted) == Listed(Jobs(entries))
  {
    CanonicalSorted(entries);
    var high, normal, low := OfPriorityEntries(entries, High), OfPriorityEntries(entries, Normal),
        OfPriorityEntries(entries, Low);
    SortedUnique(sorted, high + normal + low);
    OfPriorityEntriesJobs(entries, High);
    OfPriorityEntriesJobs(entries, Normal);
    OfPriorityEntriesJobs(entries, Low);
    JobsConcat(high + normal, low);
    JobsConcat(high, normal);
  }

  function Without(entries: seq<Entry>, index: nat): seq<Entry>
    requires index < |entries|
  {
    entries[..index] + entries[index + 1..]
  }

  /** Splicing one entry out. */
  lemma SpliceKeeps(entries: seq<Entry>, index: nat)
    requires index < |entries| && Increasing(entries) && OnePerId(Jobs(entries))
    ensures Increasing(Without(entries, index)) && OnePerId(Jobs(Without(entries, index)))
    ensures Jobs(Without(entries, index)) == Remove(Jobs(entries), entries[index].job.jobId)
  {
    RemoveIsSplice(Jobs(entries), index);
    assert Jobs(Without(entries, index)) == Jobs(entries)[..index] + Jobs(entries)[index + 1..];
  }

  lemma SpliceMembers(entries: seq<Entry>, index: nat)
    requires index < |entries| && Increasing(entries)
    ensures forall e :: e in Without(entries, index) <==> e in entries && e != entries[index]
  {
    forall e | e in entries && e != entries[index] ensures e in Without(entries, index) {
      var k :| 0 <= k < |entries| && entries[k] == e;
      assert Without(entries, index)[if k < index then k else k - 1] == e;
    }
  }

  /** Pushing an entry with a new id and a number above all others. */
  lemma PushKeeps(entries: seq<Entry>, e: Entry)
    requires Increasing(entries) && OnePerId(Jobs(entries)) && !Holds(Jobs(entries), e.job.jobId)
    requires forall i :: 0 <= i < |entries| ==> entries[i].sequence < e.sequence
    ensures Increasing(entries + [e]) && OnePerId(Jobs(entries + [e]))
    ensures Jobs(entries + [e]) == Jobs(entries) + [e.job]
  {
    forall i | 0 <= i < |entries| ensures Jobs(entries)[i].jobId != e.job.jobId {}
  }
}
