/**
 Moving a job along its life (`#advanceJobToStatus`, three copies) and closing it from its workers' results
 (`determineJobResultStatus`, `mapJobResultToJobStatus`).
 */
module JobLifecycle {
  import opened StateMachine

  const LINEAR_FLOW: seq<JobStatus> :=
    [JobStatus.Queued, JobStatus.Preparing, JobStatus.Dispatching, JobStatus.Running, JobStatus.Aggregating]

  /** The statuses of the linear flow are those of a job still under way. */
  predicate Linear(s: JobStatus) {
    !TerminalJob(s)
  }

  /** When an advance is possible without an illegal transition. */
  predicate CanAdvance(from: JobStatus, target: JobStatus) {
    from == target || (Linear(from) && Linear(target)) || ValidJob(from, target)
  }

  /** Where an advance ends: the later of the two on the linear flow, the target otherwise. */
  function Destination(from: JobStatus, target: JobStatus): JobStatus {
    if Linear(from) && Linear(target) && Rank(from) > Rank(target) then from else target
  }

  /**
   An advance raises exactly if it would take a closed job anywhere else, or close a job by a transition that is not
   legal at once; otherwise it never takes a job back, and reaches the target unless the job was past it.
   */
  lemma AdvanceMeans(from: JobStatus, target: JobStatus)
    ensures
      var to := Destination(from, target);
      && (!CanAdvance(from, target) <==>
            from != target && (TerminalJob(from) || (TerminalJob(target) && !ValidJob(from, target))))
      && (CanAdvance(from, target) ==>
            && Reaches(from, to) && Rank(to) >= Rank(target)
            && (to == target || (to == from && !TerminalJob(from) && Rank(from) > Rank(target))))
  {
  }

  method IndexOf(s: JobStatus) returns (index: int)
    ensures Linear(s) ==> 0 <= index < |LINEAR_FLOW| && LINEAR_FLOW[index] == s && index == Rank(s)
    ensures !Linear(s) ==> index == -1
  {
    index := 0;
    while index < |LINEAR_FLOW|
      invariant 0 <= index <= |LINEAR_FLOW|
      invariant Linear(s) ==> index <= Rank(s) < |LINEAR_FLOW| && LINEAR_FLOW[Rank(s)] == s
    {
      if LINEAR_FLOW[index] == s {
        return;
      }
      index := index + 1;
    }
    index := -1;
  }

  /** `#advanceJobToStatus` of scheduler.ts and workerManager.ts; `written` is what it persists, in order. */
  method AdvanceJobToStatus(status: JobStatus, target: JobStatus) returns (written: seq<JobStatus>, raised: bool)
    ensures raised <==> !CanAdvance(status, target)
    ensures LegalPath(status, written)
    ensures EndOf(status, written) == if raised then status else Destination(status, target)
    ensures !Linear(target) && written != [] ==> written == [target]
  {
    written, raised := [], false;
    if status == target {
      return;
    }
    var currentIndex := IndexOf(status);
    var targetIndex := IndexOf(target);
    if currentIndex >= 0 && targetIndex >= 0 && currentIndex > targetIndex {
      return;
    }
    if currentIndex >= 0 && targetIndex >= 0 && targetIndex > currentIndex {
      var index := currentIndex + 1;
      while index <= targetIndex
        invariant currentIndex + 1 <= index <= targetIndex + 1
        invariant LegalPath(status, written)
        invariant EndOf(status, written) == LINEAR_FLOW[index - 1]
      {
        assert ValidJob(LINEAR_FLOW[index - 1], LINEAR_FLOW[index]);
        LegalPathAppend(status, written, LINEAR_FLOW[index]);
        written := written + [LINEAR_FLOW[index]];
        index := index + 1;
      }
      return;
    }
    if ValidJob(status, target) {
      written := [target];
    } else {
      raised := true;
    }
  }

  /** The reconciler's copy tests the two linear cases the other way round; the contract is the same. */
  method ReconcilerAdvanceJobToStatus(status: JobStatus, target: JobStatus)
    returns (written: seq<JobStatus>, raised: bool)
    ensures raised <==> !CanAdvance(status, target)
    ensures LegalPath(status, written)
    ensures EndOf(status, written) == if raised then status else Destination(status, target)
    ensures !Linear(target) && written != [] ==> written == [target]
  {
    written, raised := [], false;
    if status == target {
      return;
    }
    var currentIndex := IndexOf(status);
    var targetIndex := IndexOf(target);
    if currentIndex >= 0 && targetIndex >= 0 && targetIndex > currentIndex {
      var index := currentIndex + 1;
      while index <= targetIndex
        invariant currentIndex + 1 <= index <= targetIndex + 1
        invariant LegalPath(status, written)
        invariant EndOf(status, written) == LINEAR_FLOW[index - 1]
      {
        assert ValidJob(LINEAR_FLOW[index - 1], LINEAR_FLOW[index]);
        LegalPathAppend(status, written, LINEAR_FLOW[index]);
        written := written + [LINEAR_FLOW[index]];
        index := index + 1;
      }
      return;
    }
    if currentIndex >= 0 && targetIndex >= 0 && currentIndex > targetIndex {
      return;
    }
    if ValidJob(status, target) {
      written := [target];
    } else {
      raised := true;
    }
  }

  datatype Execution = Completed | Failed | Canceled | TimedOut

  /** The order in which results spoil a job: failures (and timeouts) over cancellations over completion. */
  function Severity(e: Execution): nat {
    match e
    case Completed => 0
    case Canceled => 1
    case Failed => 2
    case TimedOut => 2
  }

  function DetermineJobResultStatus(jobStatus: JobStatus, results: seq<Execution>): Execution {
    if jobStatus == JobStatus.Canceled then Execution.Canceled
    else if Execution.Failed in results || Execution.TimedOut in results then Execution.Failed
    else if Execution.Canceled in results then Execution.Canceled
    else Execution.Completed
  }

  function WorseOf(a: Execution, b: Execution): Execution {
    if Severity(a) >= Severity(b) then a else b
  }

  function MapJobResultToJobStatus(e: Execution): JobStatus {
    match e
    case Completed => JobStatus.Completed
    case Canceled => JobStatus.Canceled
    case Failed => JobStatus.Failed
    case TimedOut => JobStatus.Failed
  }

  /** The status a job closes with: the worst of its workers' results. */
  function WorstStatus(results: set<Execution>): JobStatus {
    if Execution.Failed in results || Execution.TimedOut in results then JobStatus.Failed
    else if Execution.Canceled in results then JobStatus.Canceled
    else JobStatus.Completed
  }

  lemma ClosesWithWorst(collected: seq<Execution>, results: set<Execution>)
    requires forall e :: e in collected <==> e in results
    ensures MapJobResultToJobStatus(DetermineJobResultStatus(JobStatus.Aggregating, collected)) == WorstStatus(results)
  {
  }

  /** The status results close a job with: completed if all are, failed if one is failed or timed out. */
  lemma ClosingMeans(results: seq<Execution>)
    ensures
      var status := MapJobResultToJobStatus(DetermineJobResultStatus(JobStatus.Aggregating, results));
      && (status == JobStatus.Completed <==> forall e :: e in results ==> e == Execution.Completed)
      && (status == JobStatus.Failed <==>
            exists e :: e in results && e != Execution.Completed && e != Execution.Canceled)
      && (status == JobStatus.Completed || status == JobStatus.Failed || status == JobStatus.Canceled)
  {
    assert forall e: Execution :: e.Completed? || e.Failed? || e.Canceled? || e.TimedOut?;
  }

  /** Aggregation is a monoid homomorphism: two groups of workers may be aggregated apart and then compared. */
  lemma AggregationOfConcatenation(s: JobStatus, a: seq<Execution>, b: seq<Execution>)
    ensures DetermineJobResultStatus(s, []) == if s == JobStatus.Canceled then Execution.Canceled
            else Execution.Completed
    ensures DetermineJobResultStatus(s, a + b) ==
            WorseOf(DetermineJobResultStatus(s, a), DetermineJobResultStatus(s, b))
  {
  }

  /** Aggregation does not depend on the order of the results. */
  lemma AggregationIgnoresOrder(s: JobStatus, a: seq<Execution>, b: seq<Execution>)
    requires multiset(a) == multiset(b)
    ensures DetermineJobResultStatus(s, a) == DetermineJobResultStatus(s, b)
  {
    forall e: Execution ensures e in a <==> e in b {
      assert e in multiset(a) <==> e in multiset(b);
    }
  }

  /** The worst result decides, and closing an aggregating job with it is always a legal transition. */
  lemma ClosesFromAggregating(results: seq<Execution>)
    ensures var e := DetermineJobResultStatus(JobStatus.Aggregating, results);
      && (forall r :: r in results ==> Severity(r) <= Severity(e))
      && (e != Execution.Completed ==> exists r :: r in results && Severity(r) == Severity(e))
      && ValidJob(JobStatus.Aggregating, MapJobResultToJobStatus(e))
      && MapJobResultToJobStatus(e) != JobStatus.TimedOut
  {
  }
}
