/** Which of two jobs stands before the other in a queue, and how the queue's operations change that. */
module QueueOrder {
  import opened Models
  import opened QueueSpec
  import QueueListing

  predicate Precedes(q: seq<Job>, a: JobId, b: JobId) {
    exists i, j :: 0 <= i < j < |q| && q[i].jobId == a && q[j].jobId == b
  }

  lemma PrecedesCons(q: seq<Job>, a: JobId, b: JobId)
    requires q != []
    ensures Precedes(q, a, b) <==> (q[0].jobId == a && Holds(q[1..], b)) || Precedes(q[1..], a, b)
  {
    if Precedes(q, a, b) {
      var i, j :| 0 <= i < j < |q| && q[i].jobId == a && q[j].jobId == b;
      assert q[1..][j - 1].jobId == b;
      if i > 0 {
        assert q[1..][i - 1].jobId == a;
      }
    }
    if q[0].jobId == a && Holds(q[1..], b) {
      var j :| 0 <= j < |q[1..]| && q[1..][j].jobId == b;
      assert q[j + 1].jobId == b;
    }
    if Precedes(q[1..], a, b) {
      var i, j :| 0 <= i < j < |q[1..]| && q[1..][i].jobId == a && q[1..][j].jobId == b;
      assert q[i + 1].jobId == a && q[j + 1].jobId == b;
    }
  }

  lemma {:induction false} RemovePrecedes(q: seq<Job>, jobId: JobId, a: JobId, b: JobId)
    ensures Precedes(Remove(q, jobId), a, b) <==> Precedes(q, a, b) && a != jobId && b != jobId
  {
    if q != [] {
      RemovePrecedes(q[1..], jobId, a, b);
      PrecedesCons(q, a, b);
      RemoveHolds(q[1..], jobId, b);
      if q[0].jobId != jobId {
        var rest := Remove(q[1..], jobId);
        assert Remove(q, jobId)[1..] == rest;
        PrecedesCons(Remove(q, jobId), a, b);
      }
    }
  }

  lemma AppendPrecedes(q: seq<Job>, job: Job, a: JobId, b: JobId)
    ensures Precedes(q + [job], a, b) <==> Precedes(q, a, b) || (job.jobId == b && Holds(q, a))
  {
    if Precedes(q, a, b) {
      var i, j :| 0 <= i < j < |q| && q[i].jobId == a && q[j].jobId == b;
      assert (q + [job])[i].jobId == a && (q + [job])[j].jobId == b;
    }
    if job.jobId == b && Holds(q, a) {
      var i :| 0 <= i < |q| && q[i].jobId == a;
      assert (q + [job])[i].jobId == a && (q + [job])[|q|].jobId == b;
    }
  }

  /** An enqueued job stands behind all others; what order these have among themselves stays. */
  lemma EnqueuePrecedes(q: seq<Job>, job: Job, a: JobId, b: JobId)
    requires a != b
    ensures Precedes(Enqueue(q, job), a, b) <==>
            if job.jobId == b then Holds(q, a) else job.jobId != a && Precedes(q, a, b)
  {
    RemovePrecedes(q, job.jobId, a, b);
    RemoveHolds(q, job.jobId, a);
    AppendPrecedes(Remove(q, job.jobId), job, a, b);
  }

  /** Of two jobs held, one stands before the other; with one entry per job, only one does. */
  lemma PrecedesTotal(q: seq<Job>, a: JobId, b: JobId)
    requires OnePerId(q) && a != b && Holds(q, a) && Holds(q, b)
    ensures Precedes(q, a, b) <==> !Precedes(q, b, a)
  {
    var i :| 0 <= i < |q| && q[i].jobId == a;
    var j :| 0 <= j < |q| && q[j].jobId == b;
    if i > j {
      assert Precedes(q, b, a);
    }
  }

  /** Jobs of one priority are listed in the order of the queue. */
  lemma ListedPrecedes(q: seq<Job>, i: nat, j: nat)
    requires OnePerId(q) && i < |q| && j < |q| && q[i].jobId != q[j].jobId && q[i].priority == q[j].priority
    ensures Precedes(Listed(q), q[i].jobId, q[j].jobId) <==> Precedes(q, q[i].jobId, q[j].jobId)
  {
    var a, b := q[i].jobId, q[j].jobId;
    QueueListing.ListedDistinct(q);
    QueueListing.ListedHolds(q, a);
    QueueListing.ListedHolds(q, b);
    PrecedesTotal(q, a, b);
    PrecedesTotal(Listed(q), a, b);
    if i < j {
      var k, l := StandsBefore(q, i, j);
      assert Precedes(q, a, b) && Precedes(Listed(q), a, b);
    } else {
      var k, l := StandsBefore(q, j, i);
      assert Precedes(q, b, a) && Precedes(Listed(q), b, a);
    }
  }
}

/** First in, first out across a reconciliation: exactly when one job still stands before another. */
module RecoveryOrder {
  import opened Models
  import opened QueueSpec
  import opened QueueOrder
  import opened Reconciliation

  predicate ListedBefore(listing: seq<JobId>, a: JobId, b: JobId) {
    exists i, j :: 0 <= i < j < |listing| && listing[i] == a && listing[j] == b
  }

  lemma LastListedBefore(listing: seq<JobId>, last: JobId, a: JobId, b: JobId)
    requires last !in listing && a != b
    ensures ListedBefore(listing + [last], a, b) <==> if last == b then a in listing else ListedBefore(listing, a, b)
  {
    var all := listing + [last];
    assert all[|listing|] == last;
    if a in listing {
      var i :| 0 <= i < |listing| && listing[i] == a;
      assert all[i] == a;
    }
    if ListedBefore(listing, a, b) {
      var i, j :| 0 <= i < j < |listing| && listing[i] == a && listing[j] == b;
      assert all[i] == a && all[j] == b;
    }
  }

  /** Requeued jobs come last, in the order they are listed in; the others keep the order they had. */
  predicate ComesFirst(queue: seq<Job>, listing: seq<JobId>, requeued: set<JobId>, a: JobId, b: JobId) {
    if a in requeued && b in requeued then ListedBefore(listing, a, b)
    else if b in requeued then Holds(queue, a)
    else a !in requeued && Precedes(queue, a, b)
  }

  function Requeued(listing: seq<JobId>, jobs: Jobs, workers: Workers, repaired: set<JobId>): set<JobId>
    requires forall j :: j in listing ==> j in jobs
  {
    set j | j in listing && Requeues(jobs[j], workers, repaired)
  }

  /** One more job of the listing, requeued or not. */
  lemma OneMoreListed(queue: seq<Job>, front: seq<JobId>, last: JobId, r: set<JobId>, a: JobId, b: JobId)
    requires last !in front && a != b && forall j :: j in r ==> j in front
    ensures ComesFirst(queue, front + [last], r, a, b) <==> ComesFirst(queue, front, r, a, b)
    ensures ComesFirst(queue, front + [last], r + {last}, a, b) <==>
            if last == b then Holds(queue, a) || a in r else last != a && ComesFirst(queue, front, r, a, b)
  {
    LastListedBefore(front, last, a, b);
  }

  lemma {:induction false} QueueAfterOrder(queue: seq<Job>, listing: seq<JobId>, jobs: Jobs, workers: Workers,
      repaired: set<JobId>, a: JobId, b: JobId)
    requires forall j :: j in listing ==> j in jobs && jobs[j].jobId == j
    requires Lists(listing, set j | j in listing) && a != b
    ensures Precedes(QueueAfter(queue, listing, jobs, workers, repaired), a, b) <==>
            ComesFirst(queue, listing, Requeued(listing, jobs, workers, repaired), a, b)
    decreases |listing|
  {
    if listing != [] {
      var front, last := listing[..|listing| - 1], listing[|listing| - 1];
      assert listing == front + [last];
      QueueAfterOrder(queue, front, jobs, workers, repaired, a, b);
      QueueAfterHolds(queue, front, jobs, workers, repaired, a);
      var before, r := QueueAfter(queue, front, jobs, workers, repaired), Requeued(front, jobs, workers, repaired);
      OneMoreListed(queue, front, last, r, a, b);
      if Requeues(jobs[last], workers, repaired) {
        assert Requeued(listing, jobs, workers, repaired) == r + {last};
        EnqueuePrecedes(before, jobs[last], a, b);
      } else {
        assert Requeued(listing, jobs, workers, repaired) == r;
      }
    }
  }

  /** The jobs a reconciliation puts back: those under way that lost a worker to it or have none. */
  function RequeuedBy(s: State, listing: seq<JobId>, world: World, force: bool, controlPlane: bool): set<JobId>
    requires forall j :: j in listing ==> j in s.jobs
  {
    var fates := FatesOf(s.workers, world, force, controlPlane);
    Requeued(listing, s.jobs, RepairedIn(s.workers, s.workers.Keys, fates),
        RepairedJobs(s.workers, s.workers.Keys, fates))
  }

  /** For any two jobs, which of them stands before the other once a reconciliation is over. */
  lemma OrderAfterRecovery(s: State, listing: seq<JobId>, world: World, force: bool, controlPlane: bool,
      a: JobId, b: JobId)
    requires StateValid(s) && Lists(listing, s.jobs.Keys) && a != b
    ensures Precedes(Reconciled(s, listing, world, force, controlPlane).queue, a, b) <==>
            ComesFirst(s.queue, listing, RequeuedBy(s, listing, world, force, controlPlane), a, b)
  {
    var fates := FatesOf(s.workers, world, force, controlPlane);
    QueueAfterOrder(s.queue, listing, s.jobs, RepairedIn(s.workers, s.workers.Keys, fates),
        RepairedJobs(s.workers, s.workers.Keys, fates), a, b);
  }

  /**
   First in, first out within a priority, exactly: of two jobs that stood in this order, the first is still listed
   first if and only if it was not put back, or both were and it is the first of the two in the store's listing.
   */
  lemma FifoIsKeptIff(s: State, listing: seq<JobId>, world: World, force: bool, controlPlane: bool, i: nat, j: nat)
    requires StateValid(s) && Lists(listing, s.jobs.Keys) && OnePerId(s.queue)
    requires var queue := Reconciled(s, listing, world, force, controlPlane).queue;
      i < |queue| && j < |queue| && queue[i].priority == queue[j].priority
      && Precedes(s.queue, queue[i].jobId, queue[j].jobId)
    ensures var queue := Reconciled(s, listing, world, force, controlPlane).queue;
      var requeued := RequeuedBy(s, listing, world, force, controlPlane);
      var a, b := queue[i].jobId, queue[j].jobId;
      Precedes(Listed(queue), a, b) <==> a !in requeued || (b in requeued && ListedBefore(listing, a, b))
  {
    var queue := Reconciled(s, listing, world, force, controlPlane).queue;
    var fates := FatesOf(s.workers, world, force, controlPlane);
    QueueAfterHolds(s.queue, listing, s.jobs, RepairedIn(s.workers, s.workers.Keys, fates),
        RepairedJobs(s.workers, s.workers.Keys, fates), queue[i].jobId);
    ListedPrecedes(queue, i, j);
    OrderAfterRecovery(s, listing, world, force, controlPlane, queue[i].jobId, queue[j].jobId);
  }
}
