# Verified model of the orchestrator's dispatch and control plane

A Dafny model of how the orchestrator hands work to workers and keeps its books about them, with proofs of what its
parts promise together. Classes stand for the source's classes and change their fields as it does; each method is
proved against a specification function or states its whole new state, and the theorems are about those
specifications over every input, every run and every outcome of the outside world. What a value means is proved apart
from how it is computed: the lemmas named `...Means`, `...Iff` and `...Lasts`, and the modules of terms, outcomes and
answers, say it in statuses, clocks and texts. `dafny verify dfyconfig.toml` checks the project.

| area | files |
|---|---|
| coordinator: leases, assignments, fencing tokens | Decimal, Fencing, Coordination, Coordinators, CoordinatorSimulation, CoordinatorRefinement, LeaseHistory, CoordinatorTerms |
| dispatch queue, two implementations | DispatchQueue, Queues |
| job life, policies, one scheduler's pass and claims | StateMachine, Models, JobLifecycle, Retry, Policies, DispatchView, Scheduler |
| many schedulers over one coordinator and store | Cluster, PassInCluster |
| claims by remote executors, interleaved | RemoteClaims, ClaimInSteps |
| workers that end, remote results, recovery | WorkerEnding, RemoteResults, Recovery, Reconciler, RecoveryOutcome, RecoveryOrder |
| sessions and their stdio transport | Sessions, SessionAnswers, StdioSession, StdioOutput |
| event delivery, artifact index | PollingStream, EventOrder, EventLoss, ArtifactIndex |

How the model is cut: one coordinator, queue or store call is one step. A handler is one step unless interleaving is the
point: `Cluster` and `RemoteClaims` interleave the single store calls of any number of passes and claims, `StdioSession`
lets output arrive at every wait of a replay, and `PollingStream` splits a poll into its listing and its callback.
Clocks are integers handed to each call. Directories, worktrees, runtimes, processes and runtime bridges are outcomes
chosen freely. Ids made by the store are fresh numbers where nothing reads their text, and strings where tokens are
built from them.

## What the code does not do

The proofs follow the code; where it falls short of what one would expect, a lemma gives the exact condition or a run.

- The in-memory coordinator leaves the token of an abandoned assignment current; the SQLite one does not
  (`UnregisterFencesIffBumped`), and the versions drift by exactly one per such event (`GapCountsAbandonments`).
- Lease tokens grow only on renewal (`LeaseTokenGrowsIffRenewed`); exclusion needs a clock that does not run back
  (`ExclusionNeedsTheClock`) and passes that end before their lease (`LatePassBreaksCap`).
- A worktree failure leaves a starting worker that nothing counts (`SchedulableIsNotCapped`); such workers are all that
  can exceed the limit on schedulable workers (`SchedulableAfterPass`). docs/IMPL-DETAIL.md:615
  expects the worktree failure to fail the job; what fails it is the dispatch-failure handler, and the worker stays.
- Nothing keeps two remote claims of one scheduler apart: the second is granted the lease as a renewal. Claims that do
  not overlap keep all three caps (`SerialClaimsAreSafe`); two that do exceed every cap with one place left
  (`OverlappingClaimsAddTwo`).
- A failed remote claim of a job that was still queued makes the failure handler raise, and the job is stranded; for
  any other job the handler's stale record drops the new worker from the job's list (`ClaimJob`). If the job was canceled
  during the claim, Failed is written over Canceled, and the canceled job is retried (`CancelThenFail`).
- A heartbeat is written over a terminal worker, which can then take a second result (`SecondResultAfterHeartbeat`),
  and the exit of a worker that is still starting raises (`HandleWorkerExit`). docs/IMPL-DETAIL.md:412 has every
  transition checked by the state machine.
- Reconciling twice can close a job that reconciling once requeues (`SecondPassClosesRequeuedJob`). Requeueing does not
  keep first-in first-out order, which docs/ARCHITECTURE.md:656 asks for within a priority: it is kept for exactly the
  pairs of `FifoIsKeptIff`, and `FifoOrderIsLost` is the smallest pair for which it is not.
- A line `null` on stdout raises in an event handler, which nothing catches (`CrashesIffNullLine`). Every attach brings a
  cursor, and one that differs from the session's own breaks the numbering, exactly as `AttachKeepsNumbersIff` says;
  `AttachRepeatsNumbers` is the smallest case.
- Live emits overtake polled events (`OrderIsNotKept`); the order of the log is kept exactly as `OrderIsKeptIff` says. A
  callback that raises in the middle of a listing loses the rest of it (`RaisedPollLosesRest`).
- A takeover given up again loses an artifact until the next rebuild (`TakeoverLosesArtifact`).

## Model

| member | source | states |
|---|---|---|
| Decimal.ParsePrint | src/scheduler/scheduler.ts:607-635 | A number printed with `String` and read back with `parseInt` is itself: the carrier of retry counters and token versions. |
| Decimal.ParseIntReads | src/scheduler/scheduler.ts:607-611 | What `parseInt` reads, for every text: after white space, one sign and leading zeros, the digits up to the first other character. |
| Decimal.ParseIntIff | src/scheduler/policies.ts:51-60 | It reads a number at all if and only if white space and at most one sign are followed by a digit. |
| Fencing.VersionRecovered | src/control/coordination.ts:426-453 | The version of a token is recovered whatever the ids before it contain, colons included. |
| Fencing.AssignmentTokenVersion | src/control/coordination.ts:441-453 | The version read back from an assignment token is the one it was built with, for every worker and executor id. |
| Fencing.LeaseTokenVersion | src/control/coordination.ts:433-453 | The same for dispatch-lease tokens. |
| Fencing.CompareAssignmentTokens | src/control/coordination.ts:455-472 | Comparing two assignment tokens is comparing their versions, for any two workers and executors. |
| Fencing.ExecutorTokenVersion | src/control/coordination.ts:426-431 | The generation read back from a registration token is the one it was built with. |
| Fencing.CompareIsAntisymmetric | src/control/coordination.ts:455-472 | Comparing the other way round gives the opposite, and no token comes before any token. |
| Coordination.DistinctKeepsFirst | src/control/coordination.ts:161-171 | Normalising roles and modes keeps exactly the items given, once each, in the order of their first mention. |
| Coordination.StepLease | src/control/coordination.ts:206-320 | The stored lease of a key depends only on that key's own history of calls. |
| Coordination.StepAssignment | src/control/coordination.ts:206-381 | The stored assignment of a worker depends only on that worker's own history of calls. |
| InMemoryCoordinator.InMemoryControlPlaneCoordinator.RegisterExecutor | src/control/coordination.ts:153-187 | A re-registration continues the generation count and keeps `registeredAt`; the profile is normalised. |
| InMemoryCoordinator.InMemoryControlPlaneCoordinator.HeartbeatExecutor | src/control/coordination.ts:189-204 | Refreshes a known executor and nothing else; an unknown one yields nothing. |
| InMemoryCoordinator.InMemoryControlPlaneCoordinator.UnregisterExecutor | src/control/coordination.ts:206-232 | Removes the executor and its leases, releases what it held, and touches nobody else's records. |
| InMemoryCoordinator.InMemoryControlPlaneCoordinator.AcquireLease | src/control/coordination.ts:255-293 | Granted exactly unless another owner's lease has not expired, until `now + ttlMs` each time; an owner's renewal continues the version and a takeover restarts at 1. |
| InMemoryCoordinator.InMemoryControlPlaneCoordinator.ReleaseLease | src/control/coordination.ts:295-303 | Only the owner's release removes the lease. |
| InMemoryCoordinator.InMemoryControlPlaneCoordinator.GetLease | src/control/coordination.ts:305-320 | An expired lease is removed on reading, and never returned. |
| InMemoryCoordinator.InMemoryControlPlaneCoordinator.UpsertWorkerHeartbeat | src/control/coordination.ts:322-354 | Every heartbeat issues the next version; `assignedAt` is kept while the assignment is not released. |
| InMemoryCoordinator.InMemoryControlPlaneCoordinator.ReleaseWorkerHeartbeat | src/control/coordination.ts:356-381 | Only the assigned executor releases, and the release issues the next version. |
| InMemoryCoordinator.InMemoryControlPlaneCoordinator.GetExecutor | src/control/coordination.ts:234-242 | A snapshot is stale exactly when the heartbeat is older than the limit. |
| InMemoryCoordinator.InMemoryControlPlaneCoordinator.ListExecutors | src/control/coordination.ts:244-253 | Lists exactly the executors that are not stale, or all on request. |
| InMemoryCoordinator.InMemoryControlPlaneCoordinator.GetWorkerAssignment | src/control/coordination.ts:383-389 | Reports the assignment with its heartbeat state at that clock value. |
| InMemoryCoordinator.InMemoryControlPlaneCoordinator.ListWorkerAssignments | src/control/coordination.ts:391-406 | Lists exactly the assignments that pass both filters. |
| InMemoryCoordinator.InMemoryControlPlaneCoordinator.DeleteLeasesOf | src/control/coordination.ts:209-213 | The loop removes exactly the leases of one owner. |
| InMemoryCoordinator.InMemoryControlPlaneCoordinator.ReleaseAssignmentsOf | src/control/coordination.ts:215-229 | The loop releases exactly the active assignments of one executor, in any order, with their versions as they were. |
| SqliteCoordinator.SqliteControlPlaneCoordinator.RegisterExecutor | src/control/sqliteCoordinator.ts:71-116 | A re-registration continues the generation count and keeps `registeredAt`; the profile is normalised. The same specification as the in-memory method, up to the version bump on unregistration. |
| SqliteCoordinator.SqliteControlPlaneCoordinator.HeartbeatExecutor | src/control/sqliteCoordinator.ts:118-136 | Refreshes a known executor and nothing else; an unknown one yields nothing. The same specification as the in-memory method, up to the version bump on unregistration. |
| SqliteCoordinator.SqliteControlPlaneCoordinator.UnregisterExecutor | src/control/sqliteCoordinator.ts:138-185 | Removes the executor and its leases, releases what it held, and touches nobody else's records. The same specification as the in-memory method, up to the version bump on unregistration. |
| SqliteCoordinator.SqliteControlPlaneCoordinator.AcquireLease | src/control/sqliteCoordinator.ts:218-262 | Granted exactly unless another owner's lease has not expired, until `now + ttlMs` each time; an owner's renewal continues the version and a takeover restarts at 1. The same specification as the in-memory method, up to the version bump on unregistration. |
| SqliteCoordinator.SqliteControlPlaneCoordinator.ReleaseLease | src/control/sqliteCoordinator.ts:264-274 | Only the owner's release removes the lease. The same specification as the in-memory method, up to the version bump on unregistration. |
| SqliteCoordinator.SqliteControlPlaneCoordinator.GetLease | src/control/sqliteCoordinator.ts:276-288 | An expired lease is removed on reading, and never returned. The same specification as the in-memory method, up to the version bump on unregistration. |
| SqliteCoordinator.SqliteControlPlaneCoordinator.UpsertWorkerHeartbeat | src/control/sqliteCoordinator.ts:290-331 | Every heartbeat issues the next version; `assignedAt` is kept while the assignment is not released. The same specification as the in-memory method, up to the version bump on unregistration. |
| SqliteCoordinator.SqliteControlPlaneCoordinator.ReleaseWorkerHeartbeat | src/control/sqliteCoordinator.ts:333-366 | Only the assigned executor releases, and the release issues the next version. The same specification as the in-memory method, up to the version bump on unregistration. |
| SqliteCoordinator.SqliteControlPlaneCoordinator.GetExecutor | src/control/sqliteCoordinator.ts:187-200 | A snapshot is stale exactly when the heartbeat is older than the limit. The same specification as the in-memory method, up to the version bump on unregistration. |
| SqliteCoordinator.SqliteControlPlaneCoordinator.ListExecutors | src/control/sqliteCoordinator.ts:202-216 | Lists exactly the executors that are not stale, or all on request. The same specification as the in-memory method, up to the version bump on unregistration. |
| SqliteCoordinator.SqliteControlPlaneCoordinator.GetWorkerAssignment | src/control/sqliteCoordinator.ts:368-374 | Reports the assignment with its heartbeat state at that clock value. The same specification as the in-memory method, up to the version bump on unregistration. |
| SqliteCoordinator.SqliteControlPlaneCoordinator.ListWorkerAssignments | src/control/sqliteCoordinator.ts:376-397 | Lists exactly the assignments that pass both filters. The same specification as the in-memory method, up to the version bump on unregistration. |
| SqliteCoordinator.SqliteControlPlaneCoordinator.ReleaseRowsOf | src/control/sqliteCoordinator.ts:150-182 | The loop releases exactly the active assignments of one executor, in any order, with the next version and token. |
| CoordinatorSimulation.StepSimulates | src/control/sqliteCoordinator.ts:71-397 | One call keeps both coordinators equal up to assignment version and token, with the SQLite version never smaller, and their replies equal likewise. |
| CoordinatorSimulation.RunSimulates | src/control/sqliteCoordinator.ts:71-397 | The same along every run of calls: the states at its end and each reply on the way. |
| CoordinatorSimulation.CoordinatorsAgree | src/control/sqliteCoordinator.ts:71-397 | Both coordinators start empty, so they agree on every run. |
| CoordinatorSimulation.GapCountsAbandonments | src/control/coordination.ts:215-229 | The two versions of a worker's assignment differ by exactly the number of unregistrations that took its active executor away. |
| CoordinatorRefinement.CallInMemory | src/control/coordination.ts:148-407 | Any call on the in-memory class does what the interface specification says. |
| CoordinatorRefinement.CallSqlite | src/control/sqliteCoordinator.ts:56-402 | Any call on the SQLite class does what the interface specification says, with the version bump. |
| CoordinatorRefinement.RunBoth | src/control/sqliteCoordinator.ts:56-402 | Driving both classes through one run of calls gives replies that agree one by one. |
| AssignmentFencing.IssueRaisesVersion | src/control/coordination.ts:322-381 | Every token handed out has a version above the one current before. |
| AssignmentFencing.IssuedTokensIncrease | src/control/coordination.ts:322-381 | Over any run and any executors, a token issued earlier for a worker compares below every later one, so none repeats. |
| AssignmentFencing.UnregisterFencesIffBumped | src/control/coordination.ts:215-229 | Unregistering fences off the token of the assignment left behind exactly on the coordinator that bumps versions; the in-memory one leaves it current. |
| LeaseHistory.AtMostOneHolder | src/control/coordination.ts:255-320 | Over any run whose clock never runs backwards, no instant has two owners of one key. |
| LeaseHistory.HolderIsStoredOwner | src/control/coordination.ts:255-320 | Somebody holds the key now exactly when the stored lease is theirs and has not expired: the history is the coordinator's own. |
| LeaseHistory.VersionsCountTenure | src/control/coordination.ts:269-288 | Within an uninterrupted tenure versions run 1, 2, 3, ... and `acquiredAt` stays; holds follow one another in time. |
| LeaseHistory.ExclusionNeedsTheClock | src/control/coordination.ts:261-288 | A run with a clock that runs back gives two holders at one instant: the assumption on the clock is needed. |
| LeaseHistory.LeaseTokenGrowsIffRenewed | src/control/coordination.ts:269-280 | A granted lease token is above the stored one exactly when the owner renews: lease tokens do not fence across owners. |
| LeaseTerms.GrantLasts | src/control/coordination.ts:255-293 | After an acquire that was granted, at any point of any run and be it the first grant, a takeover or a renewal, the owner holds the key at t exactly for now <= t < now + ttlMs, until the owner calls about it again. |
| LeaseTerms.GrantedIffFree | src/control/coordination.ts:261-268 | An acquire is granted if and only if nobody else holds the key at that moment of the run. |
| LeaseTerms.ReadReportsHolder | src/control/coordination.ts:305-320 | Reading a key reports exactly its holder of that moment. |
| LeaseTerms.ReleaseEndsHold | src/control/coordination.ts:295-303 | After its release or unregistration an owner holds the key no more, whatever others do. |
| AssignmentTerms.HeartbeatLasts | src/control/coordination.ts:322-354 | Over any run, an assignment is reported active for exactly `ttlMs` after a heartbeat and stale from then on, with what the heartbeat brought, until it is released or the next one comes. |
| AssignmentTerms.ReleaseLasts | src/control/coordination.ts:356-381 | A release by the assigned executor, or its unregistration, is final until the next heartbeat and gives its reason; one by anybody else changes nothing. |
| AssignmentTerms.ListingIsByState | src/control/coordination.ts:391-406 | The listing has a worker exactly if what is reported of it alone is active or was asked for, and reports the same. |
| ExecutorTerms.SignOfLifeLasts | src/control/coordination.ts:153-204 | Over any run, an executor is not stale for exactly the limit after it registers or beats; generations count on, and the first registration's time stays. |
| ExecutorTerms.ProfileMeans | src/control/coordination.ts:161-171 | Which roles and modes a registration has, and which by default. |
| ExecutorTerms.UnregisteredIsUnknown | src/control/coordination.ts:206-232 | An unregistered executor is unknown until it registers again. |
| ExecutorTerms.ListingIsByStaleness | src/control/coordination.ts:244-253 | The listing has an executor exactly if what is reported of it alone is not stale or was asked for, and reports the same. |
| QueueSpec.ListedIsStableSort | src/scheduler/queue.ts:17-79 | The listing is the stable sort by priority of the order of last enqueue: a permutation, ordered by priority and then by time. |
| QueueSpec.EnqueueHolds | src/scheduler/queue.ts:27-34 | Enqueueing adds exactly one job id. |
| QueueSpec.RemoveHolds | src/scheduler/queue.ts:50-58 | Removing takes exactly one job id out. |
| QueueSpec.QueueStepKeepsOnePerId | src/scheduler/queue.ts:27-34 | No operation ever makes two entries of one job. |
| QueueListing.ListedDistinct | src/scheduler/queue.ts:64-79 | The listing names each job once. |
| QueueListing.ListedHolds | src/scheduler/queue.ts:64-79 | The listing names exactly the jobs the queue holds. |
| QueueEntries.SortedListsJobs | src/scheduler/queue.ts:68-79 | However the entries are ordered in the array, the comparator's order lists the jobs as specified. |
| InMemoryQueue.JobQueue.Enqueue | src/scheduler/queue.ts:27-34 | The job goes last, its former entry out. |
| InMemoryQueue.JobQueue.Dequeue | src/scheduler/queue.ts:36-44 | Takes the first of the listing out, or nothing. |
| InMemoryQueue.JobQueue.Peek | src/scheduler/queue.ts:46-48 | The first of the listing, which stays. |
| InMemoryQueue.JobQueue.Remove | src/scheduler/queue.ts:50-58 | Splices out the entry of a job and says whether there was one. |
| InMemoryQueue.JobQueue.Size | src/scheduler/queue.ts:60-62 | Counts the jobs. |
| InMemoryQueue.JobQueue.List | src/scheduler/queue.ts:64-66 | The specified listing. |
| InMemoryQueue.JobQueue.GetOrderedEntries | src/scheduler/queue.ts:68-79 | The entries sorted by the comparator, whatever the sort does in between. |
| InMemoryQueue.JobQueue.RemoveEntry | src/scheduler/queue.ts:81-91 | Splices out exactly the given entry. |
| SqliteQueue.SqliteDispatchQueue.NextSequence | src/scheduler/sqliteQueue.ts:133-139 | The largest live number plus one, or 0 where there is none, although numbers are reused after removal. |
| SqliteQueue.SqliteDispatchQueue.Enqueue | src/scheduler/sqliteQueue.ts:48-60 | The job goes last although its number may have been used before. |
| SqliteQueue.SqliteDispatchQueue.Dequeue | src/scheduler/sqliteQueue.ts:62-81 | Takes the first of the listing out, or nothing. |
| SqliteQueue.SqliteDispatchQueue.Peek | src/scheduler/sqliteQueue.ts:83-93 | The first of the listing, which stays. |
| SqliteQueue.SqliteDispatchQueue.Remove | src/scheduler/sqliteQueue.ts:95-99 | Deletes the row of a job and says whether there was one. |
| SqliteQueue.SqliteDispatchQueue.Size | src/scheduler/sqliteQueue.ts:101-107 | Counts the jobs. |
| SqliteQueue.SqliteDispatchQueue.List | src/scheduler/sqliteQueue.ts:109-118 | The specified listing. |
| SqliteQueue.SqliteDispatchQueue.SelectOrdered | src/scheduler/sqliteQueue.ts:109-118 | The rows ordered by priority and number are the specified listing. |
| QueueRefinement.CallInMemory | src/scheduler/queue.ts:23-92 | Any operation on the array queue does what the specification says. |
| QueueRefinement.CallSqlite | src/scheduler/sqliteQueue.ts:33-140 | Any operation on the table queue does what the specification says. |
| QueueRefinement.RunBoth | src/scheduler/sqliteQueue.ts:33-140 | Every run of operations on two fresh queues yields the specified replies, the same from both. |
| QueueRefinement.RunKeepsOnePerId | src/scheduler/queue.ts:23-92 | Over any run the queue keeps one entry per job id. |
| QueueDraining.DrainsAsListed | src/scheduler/queue.ts:36-44 | Dequeuing as often as there are jobs gives them in the order they are listed, and leaves nothing. |
| QueueDraining.ServedBefore | src/scheduler/queue.ts:68-79 | High priority stands before normal and normal before low, and within a priority the job enqueued earlier. |
| StateMachine.LegalPathClimbs | src/core/stateMachine.ts:4-33 | Every legal write raises a job's rank, so no job is written more than five times and none leaves a terminal status. |
| StateMachine.ReachesIffLegalPath | src/core/stateMachine.ts:4-33 | Exactly the later statuses of a job under way are reachable through the transition table. |
| JobLifecycle.AdvanceJobToStatus | src/scheduler/scheduler.ts:573-605 | Writes only legal paths, ends at the later of the two statuses, and raises exactly when that is impossible. |
| JobLifecycle.ReconcilerAdvanceJobToStatus | src/reconcile/reconciler.ts:442-473 | The reconciler's copy, with its tests the other way round, keeps the same contract. |
| JobLifecycle.AggregationOfConcatenation | src/results/resultAggregator.ts:101-122 | Aggregating two groups of workers apart and taking the worse is aggregating them together. |
| JobLifecycle.AggregationIgnoresOrder | src/results/resultAggregator.ts:101-122 | The job's result does not depend on the order of the workers' results. |
| JobLifecycle.ClosesFromAggregating | src/results/resultAggregator.ts:101-122 | The worst result decides, closing with it is always legal, and never as timed out. |
| JobLifecycle.ClosesWithWorst | src/workers/workerManager.ts:1863-1873 | A job closes failed if any result failed or timed out, else canceled if any was canceled, else completed. |
| StateMachine.JobMovesIff | src/core/stateMachine.ts:4-33 | The job table in words: on to the next status, canceled at any time, failed once prepared, timed out once dispatched. |
| StateMachine.WorkerMovesIff | src/core/stateMachine.ts:35-59 | The worker table in words: on to the next status, canceled at any time, failed or lost once started. |
| StateMachine.SessionMovesIff | src/core/stateMachine.ts:61-83 | The session table in words: anything but reopening, going back to the beginning, or being active before an attach. |
| StateMachine.ReachesActiveIff | src/core/stateMachine.ts:35-59 | Which workers a path of legal transitions, of any length, still leads to Active. |
| JobLifecycle.AdvanceMeans | src/scheduler/scheduler.ts:573-605 | An advance raises if and only if it would move a closed job or close one by a transition that is not legal at once; it never takes a job back. |
| JobLifecycle.ClosingMeans | src/results/resultAggregator.ts:101-122 | A job closes completed if and only if every result is, and failed if and only if one is neither completed nor canceled. |
| Retry.RetryMetadataCounts | src/scheduler/scheduler.ts:607-635 | A clone counts one retry more than its original, through print and parse, and inherits the limit. |
| Retry.ChainIsBounded | src/scheduler/scheduler.ts:478-503 | A job that keeps failing to dispatch is cloned exactly as often as its limit leaves, the counter rising by one each time. |
| Retry.ChainDelay | src/scheduler/policies.ts:43-49 | The delays of a whole chain add up to the base times a difference of powers of two. |
| Retry.LimitIsRead | src/scheduler/policies.ts:51-63 | A limit that was printed counts as it is; none, a negative one and one without a digit leave the policy's default. |
| Retry.CounterIsRead | src/scheduler/scheduler.ts:607-611 | A counter that was printed counts as it is; none, a negative one and one without a digit count as 0. |
| Retry.LimitIsKept | src/scheduler/scheduler.ts:478-503 | A job that was never retried is cloned exactly as often as the limit in its metadata says, whatever the policy's default. |
| Policies.ConflictPersists | src/scheduler/policies.ts:17-31 | More workers never clear a write conflict. |
| Models.SchedulableIff | src/scheduler/scheduler.ts:652-658 | A worker takes a place if and only if legal transitions of any number, none included, still lead it to Active. |
| Policies.WritingIff | src/scheduler/policies.ts:22-28 | A worker counts as writing to its repository if and only if it may write and is somewhere from Starting to Active. |
| Policies.ConflictIff | src/scheduler/policies.ts:17-31 | There is a conflict if and only if the job is isolated in a worktree and one writer more would exceed the limit. |
| Policies.FinishingFreesPlace | src/scheduler/scheduler.ts:652-658 | A worker that goes from Active to Finishing frees exactly one place in all, one for its job, and one writer's. |
| DispatchView.FinishingFreesNextPass | src/scheduler/scheduler.ts:246-274 | The next pass, whose list was full, then finds exactly one place free. |
| DispatchView.WorkerStarted | src/scheduler/scheduler.ts:288-308 | Counting a started worker in the pass's own list keeps the store within both caps, though the store is not read again. |
| DispatchView.SchedulableAfterPass | src/scheduler/scheduler.ts:246-334 | After a pass the schedulable workers are exactly those in its list and those it left idle; the limit is exceeded by the latter alone. |
| DispatchView.CapsHold | src/scheduler/scheduler.ts:246-334 | What a pass leaves in the store is within each cap, or nothing was added. |
| Scheduling.WaitingIff | src/scheduler/scheduler.ts:257-265 | A job may stand in the queue if and only if it is under way and one active worker more would not exceed its limit. |
| Scheduling.ServedIff | src/scheduler/scheduler.ts:257-278 | A job needs nothing more if and only if it is closed, or such a worker would exceed its limit or the writers of its repository. |
| Scheduling.AggregationMeans | src/workers/workerManager.ts:1109-1200 | The status a job closes with, by what is recorded of its workers: completed if and only if all say so, failed if and only if one says neither that nor canceled. |
| Scheduling.StartMeans | src/workers/workerManager.ts:178-286 | What each start outcome makes of worker and job, in statuses: who is left starting, fails or becomes active, how far the job comes, and exactly when it fails with its last worker. |
| Scheduling.RetryCloneMeans | src/scheduler/scheduler.ts:613-649 | The clone asks for the same under its own id, queued and without workers; its metadata differs in its origin and its counter alone. |
| Scheduling.WillRetryIff | src/scheduler/policies.ts:43-45 | A job is retried if and only if its counter is below its limit. |
| Scheduling.Scheduler.AdvanceRecord | src/scheduler/scheduler.ts:551-605 | Writes the given record with its new status, and raises exactly on an illegal transition. |
| Scheduling.Scheduler.AggregateJobIfReady | src/workers/workerManager.ts:1109-1200 | Closes a job exactly when all its workers are there and terminal, with the worst of their results. |
| Scheduling.Scheduler.CollectResults | src/workers/workerManager.ts:1124-1141 | Collects exactly the results of the job's workers. |
| Scheduling.Scheduler.CreateWorker | src/workers/workerManager.ts:115-176 | A new worker for the stored job, or for the caller's record where none is stored, and its entry in the job; what a failure leaves at each stage. |
| Scheduling.Scheduler.StartWorker | src/workers/workerManager.ts:178-190 | Raises without a write for a missing worker or job and for a worker past its creation, with the worker left starting for a job that has ended, and otherwise starts the worker. |
| Scheduling.Scheduler.StartCreated | src/workers/workerManager.ts:178-286 | Exactly how worker, result and job end for each outcome: a worktree failure leaves the worker starting, a runtime failure fails it, and the job if it was the last. |
| Scheduling.Scheduler.FinalizeStartFailure | src/workers/workerManager.ts:1283-1328 | The worker has failed, and its job is closed if that was the last one. |
| Scheduling.Scheduler.HandleDispatchFailure | src/scheduler/scheduler.ts:478-513 | Exactly when the handler raises and what job, clone and timer it leaves when it does not, from a record however old: a job that has ended is changed exactly if the record was under way past its queueing and the job has not failed. |
| Scheduling.Scheduler.CreateRetryJob | src/scheduler/scheduler.ts:613-649 | The clone asks for the same work, queued, under a new id; it stands in the queue exactly if the caller asked for that. |
| Scheduling.Scheduler.RetryJob | src/scheduler/scheduler.ts:225-228 | A clone of any known job, whatever has become of it, goes to the queue at once with its counter one higher; an unknown job raises. |
| Scheduling.Scheduler.CreateAndStart | src/scheduler/scheduler.ts:297-301 | Creating and starting raises exactly when no active worker comes of it; the job is failed at worst. |
| Scheduling.Scheduler.Attempt | src/scheduler/scheduler.ts:296-319 | One attempt ends with an active worker or a failed job; the failure handler is never left with an illegal transition. |
| Scheduling.Scheduler.FailStored | src/scheduler/scheduler.ts:314-318 | On the stored record of a job that has left the queue the failure handler never raises. |
| Scheduling.Scheduler.FillJob | src/scheduler/scheduler.ts:286-320 | The inner loop ends because the job is served or capacity is gone, never above the job's own limit, and touches no other job or worker. |
| Scheduling.Scheduler.DispatchOne | src/scheduler/scheduler.ts:250-333 | Dealing with one job leaves it queued exactly if it may take more workers, with a reason to wait, and leaves all other jobs alone. |
| Scheduling.Scheduler.Turn | src/scheduler/scheduler.ts:250-333 | One turn of the outer loop deals with the next job and undoes nothing dealt with before. |
| Scheduling.Scheduler.RunPass | src/scheduler/scheduler.ts:246-334 | The loop over the snapshot ends, with all jobs dealt with or capacity gone. |
| Scheduling.Scheduler.DispatchLoop | src/scheduler/scheduler.ts:230-338 | For every outcome of every start: caps hold or nothing was added, the limit on schedulable workers is exceeded by idle ones alone, by workers that may still become active (`SchedulableIff`), only queued jobs are touched, jobs and workers are kept and move forward, each worker is made when the list has room for it, a job that ends has failed, a queued job that may take more workers still is queued with a reason to wait, and nobody is served out of turn. |
| Scheduling.Scheduler.ClaimJob | src/scheduler/scheduler.ts:391-444 | A claim succeeds exactly as described, or its failure is handled with the stale record: a job that was still queued is left under way with neither queue entry nor timer, any other ends failed without its new worker in its list. |
| Scheduling.Scheduler.ClaimRemoteJob | src/scheduler/scheduler.ts:340-448 | A claim that nothing else comes between: it claims for the first job of the listing that may take a worker, for no other, and within the cap on schedulable workers; it rejects exactly when a failed claim was for a job still queued. |
| Scheduling.Scheduler.FindClaimable | src/scheduler/scheduler.ts:355-389 | The job found is the first of the listing not passed over, and only jobs that may take no worker are dropped on the way. |
| RemoteClaims.StepKeepsLeases | src/scheduler/scheduler.ts:454-476 | While each scheduler answers one claim at a time and each ends before its lease, no two claims are ever under way. |
| RemoteClaims.PuttingKeepsCaps | src/scheduler/scheduler.ts:356-388 | What a claim checked against its own reads holds of the store when its worker is made or starts, whatever others did meanwhile. |
| RemoteClaims.StepKeepsInv | src/scheduler/scheduler.ts:340-448 | Every read, write and decision of a claim, and every step of others, keeps the invariant. |
| RemoteClaims.SerialClaimsAreSafe | src/scheduler/scheduler.ts:340-448 | In every state of every run in which no scheduler's claims overlap: at most one claim under way, and within all three caps, on schedulable workers, on writers of a repository and on the workers of a job. |
| RemoteClaims.OverlappingClaimsAddTwo | src/api/routes/internal.ts:206-210 | Whatever the store, two overlapping claims of one scheduler both take the job listed first if either alone may, so each cap with exactly one place left is exceeded. |
| ClaimInSteps.ClaimIsARun | src/scheduler/scheduler.ts:340-448 | A claim that nothing comes between, as `ClaimRemoteJob` answers it, is a run of the interleaved claims, in time and serial, with the same worker made and the same jobs in the queue. |
| WorkerEnding.StopIsLegal | src/workers/workerManager.ts:1434-1529 | Ending a worker without its runtime always follows the transition table. |
| WorkerEnding.ExitMeans | src/workers/workerManager.ts:1647-1688 | Finished if and only if the worker exited with code 0 and nobody stopped or timed it out, canceled if and only if it was asked to stop, lost if and only if a signal ended it with none of these; without a result file the recorded result says the same as the status. |
| WorkerEnding.StopMeans | src/workers/workerManager.ts:1434-1529 | Exactly which workers a stop cancels, which it loses, which it only tells to stop, and when it fails. |
| WorkerEnding.StopResultMeans | src/workers/workerManager.ts:1691-1705 | The result recorded with a stop: canceled with the worker, and otherwise timed out if the worker had, or failed. |
| WorkerEnding.LastWorkerCloses | src/workers/workerManager.ts:1109-1200 | The end of a worker closes its job if and only if that is under way, all its workers have ended, and there are as many as it lists. |
| WorkerEnding.WorkerManager.HandleWorkerExit | src/workers/workerManager.ts:879-1038 | A worker under way ends as its exit means and closes its job if it was the last, in legal writes but for a worker that is only created; the handler raises exactly when the worker is still starting. |
| WorkerEnding.WorkerManager.StopWorker | src/workers/workerManager.ts:288-332 | A held runtime is only told to stop and a reattached one is held from then on; otherwise the worker ends legally with its result, or stopping raises because a detached process survives. |
| WorkerEnding.WorkerManager.CancelJob | src/scheduler/scheduler.ts:181-223 | A job under way becomes canceled and leaves the queue; exactly those of its workers that nobody runs end, all others that may run are told to stop, unless one cannot be; which results are recorded and which runtimes are held; nothing else is touched. |
| WorkerEnding.WorkerManager.CancelThenFail | src/scheduler/scheduler.ts:441-443 | A claim that fails after its job was canceled, once it had left the queue: Failed is written over Canceled, and a clone of the canceled job waits for its timer exactly while retries are left. |
| WorkerEnding.StoppedMeans | src/workers/workerManager.ts:288-332 | A worker reached by a cancellation has ended legally, or a held or reattached runtime will end it. |
| WorkerEnding.EndedIff | src/scheduler/scheduler.ts:181-223 | Exactly whom a cancellation ends: workers it reaches under way that nobody holds or takes up again and whose process does not survive; every other worker and result stays. |
| WorkerEnding.HeldIff | src/workers/workerManager.ts:288-332 | Exactly which runtimes are held afterwards: those held before and those of sessions taken up again. |
| Cluster.OnePass | src/scheduler/scheduler.ts:454-476 | Passes of different schedulers never overlap while each ends before its lease. |
| Cluster.StepKeepsLeases | src/control/coordination.ts:255-320 | No call of anybody takes the lease from a scheduler that is in a pass. |
| Cluster.ActivatingKeepsCaps | src/scheduler/scheduler.ts:288-308 | What a pass checked against its own list holds of the store when its worker becomes active, whatever others did meanwhile. |
| Cluster.StepKeepsInv | src/scheduler/scheduler.ts:230-338 | Every step of schedulers, coordinator clients and ending workers keeps the invariant. |
| Cluster.ClusterIsSafe | src/scheduler/scheduler.ts:230-338 | In every state of every timely run of any number of schedulers: one pass at a time, at most the allowed active workers, at most the allowed active writers of a repository. |
| Cluster.LatePassBreaksCap | src/scheduler/scheduler.ts:454-476 | A pass that outlives its lease lets two workers be active where one is allowed. |
| Cluster.SchedulableIsNotCapped | src/workers/workerManager.ts:194-205 | A worktree failure leaves a starting worker uncounted, so schedulable workers exceed the limit even with one timely pass. |
| PassInCluster.PassIsARun | src/scheduler/scheduler.ts:246-334 | Whatever a pass of `dispatchLoop` makes of the workers, the steps of a pass in the cluster make of them when it runs alone: the two models of a pass are one. |
| Recovery.DispositionMeans | src/runtime/recovery.ts:48-103 | What each disposition implies about worker, session and process: only an open session is reattached to, only an existing live process is terminated. |
| Recovery.HasValueIff | src/runtime/recovery.ts:209-211 | An optional text counts as given if and only if it has a character that is no white space. |
| Recovery.CanReattachIff | src/runtime/recovery.ts:89-98 | Which identity can be taken up again, by its texts. |
| Reconciliation.Reconciler.RepairWorker | src/reconcile/reconciler.ts:258-354 | A worker with a disposition is reattached, ended by a legal transition, or the repair raises because a process survives. |
| Reconciliation.Reconciler.RepairWorkers | src/reconcile/reconciler.ts:143-165 | All workers met their fate, or the loop raised at one whose process survives, with those before it repaired. |
| Reconciliation.Reconciler.FinalizeRecoveredJob | src/reconcile/reconciler.ts:388-440 | Closing a recovered job is always legal. It ends completed if and only if every worker has a result file that says so, failed if and only if one says failed or timed out or a worker without one is not canceled, and canceled otherwise. |
| Reconciliation.Reconciler.RecoverJobs | src/reconcile/reconciler.ts:167-200 | Each job under way is requeued, closed or left, in listing order. |
| Reconciliation.Reconciler.Reconcile | src/reconcile/reconciler.ts:114-215 | The whole new state; it raises exactly when a detached process does not die, before touching any job; a second call meanwhile changes nothing. |
| RecoveryOutcome.WorkerFate | src/reconcile/reconciler.ts:258-354 | What a reconciliation makes of each worker, by its status and what is seen of it: left, canceled if never started, lost unless its session is taken up or its process does not die. |
| RecoveryOutcome.RepairMeans | src/reconcile/reconciler.ts:258-354 | The same of one repair, each outcome if and only if. |
| RecoveryOutcome.RaisesIff | src/reconcile/reconciler.ts:287-318 | It raises if and only if a worker it means to end has a process that does not die and no session to take up. |
| RecoveryOutcome.JobFate | src/reconcile/reconciler.ts:167-200 | A job under way is requeued if and only if it has no worker or this pass has ended one, closed if and only if all its workers had ended before, and otherwise left; nothing else is moved. |
| RecoveryOutcome.ClosingStatus | src/reconcile/reconciler.ts:401-431 | The status a reconciliation closes a job with, by the result files of its workers and their statuses alone. |
| Reconciliation.NoJobIsStranded | src/reconcile/reconciler.ts:167-200 | Afterwards every job under way stands in the queue or has a worker under way, and jobs only move forward. |
| Reconciliation.WorkersAreRepaired | src/reconcile/reconciler.ts:143-165 | Afterwards every worker with a disposition has ended legally or is held again, and all others are as they were. |
| Reconciliation.RepairIsIdempotent | src/reconcile/reconciler.ts:143-165 | Looking again at the same world repairs nothing more. |
| Reconciliation.SecondPassClosesRequeuedJob | src/reconcile/reconciler.ts:179-192 | A requeued job that is not dispatched before the next pass is closed by it exactly when it has no worker left under way. |
| QueueOrder.EnqueuePrecedes | src/scheduler/queue.ts:27-34 | An enqueued job stands behind all others, and what order these have among themselves stays. |
| QueueOrder.ListedPrecedes | src/scheduler/queue.ts:68-79 | Two jobs of one priority are listed in the order of the queue. |
| RecoveryOrder.OrderAfterRecovery | src/reconcile/reconciler.ts:167-199 | Of any two jobs, which stands before the other after a reconciliation: the jobs put back come last, in listing order, and the others keep the order they had. |
| RecoveryOrder.FifoIsKeptIff | src/reconcile/reconciler.ts:167-199 | Two jobs of one priority are still listed in their old order if and only if the first was not put back, or both were and the store lists the first of them first. |
| Reconciliation.FifoOrderIsLost | src/reconcile/reconciler.ts:167-199 | The smallest case: a queue of two equals, both put back by a listing that has them the other way round, comes out reversed. |
| RemoteResults.RemoteWorkerManager.ClaimRemoteWorker | src/workers/workerManager.ts:334-404 | A claim starts a created worker, stores the freshly issued token, and touches no other worker. |
| RemoteResults.RemoteWorkerManager.RecordRemoteHeartbeat | src/workers/workerManager.ts:406-487 | A heartbeat with the stored token moves a worker under way to the status it names, legally, and writes a terminal worker without asking. |
| RemoteResults.RemoteWorkerManager.AcceptRemoteResult | src/workers/workerManager.ts:489-608 | A result with the stored token ends a worker that is active or finishing; a terminal worker ignores it. |
| RemoteResults.ClaimMeans | src/workers/workerManager.ts:334-404 | A claim starts exactly a created worker, and raises after its writes if and only if the job is closed. |
| RemoteResults.BeatMeans | src/workers/workerManager.ts:406-487 | For every state: a heartbeat without the token is refused, one out of order is illegal, any other leaves the worker in the status it names; only an active one can raise afterwards, if and only if the job is closed. |
| RemoteResults.BeatIsReported | src/workers/workerManager.ts:460-473 | A heartbeat let through is on record with the coordinator under its own name, for the heartbeat's ttl. |
| RemoteResults.ClaimIsReported | src/workers/workerManager.ts:366-383 | So is a claim. |
| RemoteResults.ResultReleases | src/workers/workerManager.ts:522-529 | An accepted result releases the assignment of the executor that sends it, with its reason and the next version, and no other's. |
| RemoteResults.ResultMeans | src/workers/workerManager.ts:489-608 | For every state: when a result is refused, passed over, illegal or accepted, and which status and kept result it leaves. |
| RemoteResults.RemoteLife | src/workers/workerManager.ts:334-608 | For every token and clock: claim, the three beats in turn and a completed result take a created worker through Starting, Starting, Active, Finishing and Finished. |
| RemoteResults.EndingsBalance | src/workers/workerManager.ts:406-608 | Over any run, results accepted and endings by others equal the heartbeats let through on a terminal worker, plus one if it ends terminal and did not begin so. |
| RemoteResults.AcceptedAtMostOnce | src/workers/workerManager.ts:489-608 | Without such heartbeats a worker ends exactly once or is still under way. |
| RemoteResults.EndedStaysEnded | src/workers/workerManager.ts:496-499 | Then later results change neither its status nor the kept result. |
| RemoteResults.SecondResultAfterHeartbeat | src/workers/workerManager.ts:452-459 | A heartbeat after the result brings the worker back, and a second, different result is accepted. |
| RemoteResults.TokenFixedUntilClaim | src/workers/workerManager.ts:610-629 | A stored token stays until the next claim. |
| RemoteResults.OnlyTokenHoldersCount | src/workers/workerManager.ts:610-629 | Dropping every envelope that does not carry the stored token changes nothing about a run. |
| RemoteResults.ClaimIssuesToken | src/workers/workerManager.ts:363-383 | A claim under a control plane stores a token the coordinator issued for this worker. |
| RemoteResults.TokensGrow | src/workers/workerManager.ts:334-404 | Whatever else the coordinator does, stored tokens only grow, and strictly with each claim. |
| RemoteResults.ReclaimFencesOff | src/workers/workerManager.ts:610-629 | After a reclaim no envelope with a former token ever changes the worker again. |
| Sessions.SessionManager.UpdateSession | src/sessions/sessionManager.ts:707-724 | Keeps the status or moves it along the table; raises otherwise. |
| Sessions.SessionManager.CloseSession | src/sessions/sessionManager.ts:663-705 | Closes from any status with no clients left; a closed session is returned as it is. |
| Sessions.SessionManager.Create | src/sessions/sessionManager.ts:225-291 | Returns the worker's open session or makes one, attached once; every error is reported without a write. |
| Sessions.SessionManager.Attach | src/sessions/sessionManager.ts:297-360 | One client more, in the status that goes with the worker's. |
| Sessions.SessionManager.Detach | src/sessions/sessionManager.ts:362-420 | One client less, never below none; detached when none is left. |
| Sessions.SessionManager.Cancel | src/sessions/sessionManager.ts:422-439 | Closes the session before it stops its worker, and leaves it closed when that raises. |
| Sessions.SessionManager.CloseEach | src/sessions/sessionManager.ts:622-661 | Closing sessions one after another closes exactly them, in any order, and counts them. |
| Sessions.SessionManager.Reconcile | src/sessions/sessionManager.ts:622-645 | Closes exactly the open sessions whose worker is missing or terminal, and counts them. |
| Sessions.SessionManager.CloseOpen | src/sessions/sessionManager.ts:647-661 | Closes every open session, and counts them. |
| Sessions.SessionManager.SyncSessionRuntimeOnWorkerStart | src/workers/workerManager.ts:1375-1432 | A starting worker makes its attached session active, without asking the table. |
| Sessions.StepKeepsInv | src/sessions/sessionManager.ts:225-724 | No operation breaks the session invariant, every status moves along the table, and `#updateSession` never meets an illegal transition. |
| Sessions.RunKeepsInv | src/sessions/sessionManager.ts:225-724 | Over any run: clients are attached exactly while the status says so, a worker has at most one open session, a closed session never changes, no illegal transition is raised. |
| Sessions.DetachUndoesAttach | src/sessions/sessionManager.ts:297-420 | A detach takes back an attach: clients and detachedness are as before; in between the session is active exactly if its worker is. |
| Sessions.ReconcileCloses | src/sessions/sessionManager.ts:622-661 | A reconciliation leaves no deserted session open and closes no other. |
| SessionAnswers.CreateRaises | src/sessions/sessionManager.ts:225-270 | Exactly when creating a session raises which error. |
| SessionAnswers.CreateAnswers | src/sessions/sessionManager.ts:225-291 | Otherwise it returns the worker's open session, or a new one with one client that its worker knows. |
| SessionAnswers.CreateTwice | src/sessions/sessionManager.ts:238-243 | Creating again returns the session created and changes nothing. |
| SessionAnswers.AttachAnswers | src/sessions/sessionManager.ts:297-360 | Exactly when an attach raises which error, and the session it otherwise leaves. |
| SessionAnswers.DetachAnswers | src/sessions/sessionManager.ts:362-420 | Exactly when a detach raises which error, and the session it otherwise leaves. |
| SessionAnswers.SendAnswers | src/sessions/sessionManager.ts:441-524 | Exactly when input is taken and output acknowledged. |
| SessionAnswers.CancelAnswers | src/sessions/sessionManager.ts:422-439 | A cancellation closes the session and stops its worker if that is under way; only stopping can raise afterwards. |
| SessionAnswers.ReconcileAnswers | src/sessions/sessionManager.ts:622-645 | A session stays open if and only if it was and its worker is there and under way; the others are closed and counted. |
| SessionAnswers.CloseForWorkerAnswers | src/sessions/sessionManager.ts:606-620 | Closing a worker's session closes the one the worker knows and nothing else. |
| SessionAnswers.SyncAnswers | src/workers/workerManager.ts:1375-1432 | A starting worker's session becomes active if and only if clients are attached to it and the runtime does not raise. |
| StdioTransport.SplitJoin | src/runtime/codexStdioSessionClient.ts:226-228 | Splitting at newlines loses nothing and leaves no newline in a line. |
| StdioTransport.SplitFeeds | src/runtime/codexStdioSessionClient.ts:221-308 | Splitting buffer plus chunk into lines does what reading the chunk character by character does. |
| StdioTransport.ChunkingIndependent | src/runtime/codexStdioSessionClient.ts:221-308 | Two ways of cutting the same stdout into chunks leave the same buffer, history, numbers, deliveries and backpressure, and raise alike. |
| StdioTransport.CrashesIffNullLine | src/runtime/codexStdioSessionClient.ts:230-243 | Reading raises exactly when a complete line parses to `null`. |
| StdioTransport.CodexStdioSession.ConsumeStdoutChunk | src/runtime/codexStdioSessionClient.ts:221-308 | The chunked reader refines the character reader. |
| StdioTransport.CodexStdioSession.ConsumeLine | src/runtime/codexStdioSessionClient.ts:230-308 | One line becomes at most one output, an init or nothing. |
| StdioTransport.CodexStdioSession.PublishOutput | src/runtime/codexStdioSessionClient.ts:274-306 | The next number, one pending input less but never below none, and delivery to every live reader that wants it. |
| StdioTransport.CodexStdioSession.SendUserInput | src/runtime/codexStdioSessionClient.ts:146-180 | One pending input more, or a raise that changes nothing where there is no stdin. |
| StdioTransport.CodexStdioSession.AttachSession | src/runtime/codexStdioSessionClient.ts:119-137 | A cursor that comes along replaces the session's own. |
| StdioTransport.CodexStdioSession.Replay | src/runtime/codexStdioSessionClient.ts:197-203 | The replay loop up to its next wait, or to the end of a history that may have grown. |
| StdioTransport.CodexStdioSession.BeginReadOutput | src/runtime/codexStdioSessionClient.ts:182-211 | A reader begins with the replay. |
| StdioTransport.CodexStdioSession.ResumeReadOutput | src/runtime/codexStdioSessionClient.ts:197-203 | A reader goes on where it waited. |
| StdioTransport.CodexStdioSession.OnProcessClosed | src/runtime/codexStdioSessionClient.ts:89-103 | Closes every live reader. |
| StdioTransport.HandoffIsGapFree | src/runtime/codexStdioSessionClient.ts:182-211 | Whatever output arrives while readers replay, each has received exactly the entries it asked for among those it has gone past, once each and in order; a live reader has gone past them all. |
| StdioTransport.ReplayProgresses | src/runtime/codexStdioSessionClient.ts:197-203 | Each callback takes a replaying reader further or live. |
| StdioTransport.NumbersFollowIff | src/runtime/codexStdioSessionClient.ts:126-128 | Over any run output numbers are contiguous, or strictly rising, exactly if at every output the cursor stands at the last number, or not below it. |
| StdioTransport.RunKeepsNumbers | src/runtime/codexStdioSessionClient.ts:119-137 | They are so over every run in which each cursor that an attach brings counts as many outputs as the session's own, or not fewer. |
| StdioTransport.AttachKeepsNumbersIff | src/runtime/codexStdioSessionClient.ts:126-128 | Across one attach with a cursor and output after it: contiguous if and only if the cursor equals the session's own, strictly rising if and only if it is not smaller. |
| StdioTransport.ResumedReaderGetsAllIff | src/runtime/codexStdioSessionClient.ts:197-203 | A reader that asks for what comes after the numbers so far is given all output after such an attach if and only if the cursor is not smaller than the session's own. |
| StdioTransport.RunNumbers | src/runtime/codexStdioSessionClient.ts:274-290 | Which numbers a run without cursors gives: on from the cursor, one by one. |
| StdioTransport.AttachRepeatsNumbers | src/runtime/codexStdioSessionClient.ts:126-128 | The smallest case: a cursor one behind repeats a number, and a reader that resumes after it is not given the new output. |
| StdioTransport.PendingInputs | src/runtime/codexStdioSessionClient.ts:146-180 | The backpressure counter is never negative and never counts less than the inputs no output has answered. |
| StdioTransport.TrimMeans | src/runtime/codexStdioSessionClient.ts:231-234 | Trimming takes white space off both ends, up to the first other character. |
| StdioTransport.FeedDrains | src/runtime/codexStdioSessionClient.ts:291-298 | Every output takes exactly one off the count of pending inputs, as long as there is one. |
| StdioOutput.TextIsJoined | src/runtime/codexStdioSessionClient.ts:262-268 | The text of a message is that of its entries, in their order. |
| StdioOutput.TextEntryGives | src/runtime/codexStdioSessionClient.ts:266-267 | A text entry gives its text. |
| StdioOutput.OtherEntryGives | src/runtime/codexStdioSessionClient.ts:266-267 | No other entry gives any. |
| StdioOutput.MessageIsOutput | src/runtime/codexStdioSessionClient.ts:258-300 | An assistant message that is not blank becomes one output: its text, numbered on, in the name of the session attached, or else the runtime's. |
| StdioOutput.OtherLines | src/runtime/codexStdioSessionClient.ts:230-260 | Any other line gives no output; it tells the session's id if it is an init, and ends the reader if it is `null`. |
| StdioOutput.ReaderAsks | src/runtime/codexStdioSessionClient.ts:190-195 | A reader asks for what comes after the number given, or after 0, and disturbs no other. |
| StdioOutput.CloseEndsLive | src/runtime/codexStdioSessionClient.ts:89-103 | When the process closes, exactly the live readers are closed. |
| StdioOutput.CloseEndsReader | src/runtime/codexStdioSessionClient.ts:205-210 | Closing a reader closes it alone. |
| StdioOutput.ClosedGetsNothing | src/runtime/codexStdioSessionClient.ts:301-306 | A closed reader is given nothing more over any run. |
| StdioOutput.AttachedOwnsOutput | src/runtime/codexStdioSessionClient.ts:275-279 | Over any run in which no other session attaches or sends and this one does not detach, all output is its own. |
| StdioOutput.DetachUndoesAttach | src/runtime/codexStdioSessionClient.ts:139-144 | A detach takes back an attach that brought no cursor. |
| EventDelivery.PollingSubscription.OnEmit | src/core/eventBus.ts:76-83 | A live event is delivered unless its id was. |
| EventDelivery.PollingSubscription.OnTick | src/core/eventBus.ts:85-97 | One poll at a time. |
| EventDelivery.PollingSubscription.OnListed | src/core/eventBus.ts:98-116 | The listing moves the offset on and is delivered but for ids already delivered, as far as the callback does not raise. |
| EventDelivery.PollingSubscription.OnListingFailed | src/core/eventBus.ts:109-116 | A failed poll only frees the next one. |
| EventDelivery.OneCriterion | src/storage/fileStateStore.ts:1003-1028 | A filter that asks for nothing keeps the whole log; one that asks for one id, type or set of types keeps exactly the events that have it. |
| EventDelivery.CriteriaAddUp | src/storage/fileStateStore.ts:1003-1028 | A filter that asks for several things filters by each in turn, in the order of the log. |
| EventDelivery.MatchingIsInLog | src/storage/fileStateStore.ts:376-388 | Listing selects exactly the matching events. |
| EventDelivery.FailedPollFreesNext | src/core/eventBus.ts:85-116 | A poll that fails delivers nothing and frees the next one, which asks from the same offset. |
| EventDelivery.RunKeepsInv | src/core/eventBus.ts:70-123 | Over any run of appends, emits and polls the delivery invariant holds. |
| EventDelivery.DeliveredExactlyOnce | src/core/eventBus.ts:70-123 | Only matching events arrive, each once, and everything matching in `[start, nextOffset)` has arrived. |
| EventDelivery.OffsetAfterPolls | src/core/eventBus.ts:85-116 | Once the log stands still each poll that comes back moves the offset by the limit, up to the number of matches. |
| EventDelivery.OffsetAfterStaleListing | src/core/eventBus.ts:85-116 | From any state, also with a listing on its way that is older than the rest of the log, the offset moves at least so far for all such polls but one. |
| EventDelivery.PollsDeliverEverything | src/core/eventBus.ts:85-116 | Then `ceil((n - offset) / limit)` such polls deliver all matches, whatever fails or is emitted in between, or one more if a listing was on its way when the log came to rest. |
| EventLoss.PassedOverIsLostIff | src/core/eventBus.ts:85-116 | A match that polls have gone past without delivering it is received in a run if and only if it is emitted in it. |
| EventLoss.RaisedPollLosesRest | src/core/eventBus.ts:98-116 | A callback that raises in the middle of a listing loses the undelivered rest of it to all later polls: each arrives if and only if it is emitted. |
| EventOrder.DeliverKeepsOrderIff | src/core/eventBus.ts:76-83 | A delivery keeps what has been received in the order of the log exactly if all of it lies before the event. |
| EventOrder.PollKeepsOrderIff | src/core/eventBus.ts:98-108 | A poll that comes back keeps the order exactly if no event received already lies in the log beyond an undelivered event of its listing. |
| EventOrder.OrderIsKeptIff | src/core/eventBus.ts:70-123 | From any state in order: order is kept over every run in which no live event overtakes, and over a run that delivers all matches from `start` on exactly then. To overtake is to be delivered ahead of an undelivered match at or beyond the offset, or behind a later event. |
| EventOrder.SubscriptionKeepsOrderIff | src/core/eventBus.ts:70-123 | The same for a subscription from its beginning. |
| EventOrder.OvertakenNeverRecovers | src/core/eventBus.ts:98-108 | Once an event has been received ahead of a match, receiving the match later is out of order, whatever follows. |
| EventDelivery.OrderIsNotKept | src/core/eventBus.ts:76-83 | The smallest case: one live emit ahead of the poll that brings an older event. |
| ArtifactIndex.LastWinsAt | src/storage/fileStateStore.ts:866-898 | The record kept for an id is the last one listed. |
| ArtifactIndex.BuildArtifactIndexCache | src/storage/fileStateStore.ts:866-898 | The index by owner is exactly the inverse of the index by id, with no empty sets. |
| ArtifactIndex.ReplaceArtifactReferencesForOwner | src/storage/fileStateStore.ts:900-918 | The owner's old records go, the new ones come, everybody else's stay unless taken over. |
| ArtifactIndex.TableRoundTrip | src/storage/fileStateStore.ts:893-898 | Listing a cache and reading it back gives the same records. |
| ArtifactIndex.ReplaceOwners | src/storage/fileStateStore.ts:900-918 | The owner gets exactly the new ids; every other owner loses exactly the ids taken over. |
| ArtifactIndex.RebuiltAt | src/storage/fileStateStore.ts:569-594 | A rebuild keeps each id's record from the last owner that lists it. |
| ArtifactIndex.ReplacementsEqualRebuild | src/storage/fileStateStore.ts:547-594 | While owners list disjoint ids, any run of replacements gives what a rebuild would, in any listing order. |
| ArtifactIndex.ReplaceAll | src/storage/fileStateStore.ts:547-594 | A run of replacements on a cache keeps it well indexed and has the records that run gives. |
| ArtifactIndex.ReplacementEqualsRebuildIff | src/storage/fileStateStore.ts:900-918 | In general one replacement gives what a rebuild in the same order would exactly when no later owner claims a new id and no earlier one waits behind an id given up. |
| ArtifactIndex.TakeoverLosesArtifact | src/storage/fileStateStore.ts:900-918 | A takeover that is given up again loses an artifact that a rebuild still finds. |
| ArtifactIndex.OwnerKeysMean | src/storage/fileStateStore.ts:920-932 | Two records have the same owner key if and only if they have the same job, or without one the same worker, or neither. |

## Left out

- HTTP, WebSocket and SSE routes, command line, schemas, redaction, authentication, path sandboxing, network clients and operations reports: plumbing around the parts modelled.
- Process spawning, signals, git worktrees, result and log files, manifests: outcomes of the operations that use them.
- SQL text, JSON serialisation and structured cloning: tables are maps and serialisation is the identity, so what SQLite does with a row that does not parse is not modelled.
- Timestamps are integers; ISO formatting and parsing are not modelled. Each executor reads the same clock in `Cluster`.
- InMemoryCoordinator.InMemoryControlPlaneCoordinator.ListExecutors: gives the snapshots by id, not in the order in which the source sorts them.
- InMemoryCoordinator.InMemoryControlPlaneCoordinator.ListWorkerAssignments: gives the snapshots by id, not in the order in which the source sorts them.
- SqliteCoordinator.SqliteControlPlaneCoordinator.ListExecutors: gives the snapshots by id, not in the order in which the source selects them.
- SqliteCoordinator.SqliteControlPlaneCoordinator.ListWorkerAssignments: gives the snapshots by id, not in the order in which the source selects them.
- Decimal.ParsePrint: holds for every natural number, while JavaScript prints numbers from 10^21 on with an exponent and rounds integers above 2^53.
- Scheduling.Scheduler.DispatchLoop: job, worker and result stores are maps and the queue is its specification; the queue classes are tied to that specification in `QueueRefinement`. Retry timers are a list of waiting clones; when a timer fires the clone is enqueued, which is not a step of a pass.
- Scheduling.Scheduler.ClaimRemoteJob: takes a claim as one step; interleaved claims are in `RemoteClaims`.
- Submitting a job: a write followed by an enqueue.
- Cluster.ClusterIsSafe: has no jobs or queue; which job a worker is for is chosen freely, and the per-job limit is a property of one pass (`DispatchLoop`). Store calls are taken to succeed. Workers become active only by a pass: with remote executors, where heartbeats do it, the dispatch loop does not run. What others write about a worker is taken as one legal change of its status; `stopWorker`, `reattachWorkerRuntime` and `startWorker` write back a record they read some steps earlier, and so could undo an end that came in between.
- RemoteClaims.SerialClaimsAreSafe: what others write about a worker is taken as one legal change of its status, as in `Cluster`; the heartbeat that brings back a terminal worker (`SecondResultAfterHeartbeat`) is not such a change. Heartbeats come from the executor a worker was handed to. A claim's own writes of the job are among the job writes that may come at any time; the reads of a job's workers and the decision on them are one step.
- Report counters of a reconciliation, event publication and the cleanup of old files.
- Reconciliation.Reconciler.RepairWorker: what reattaching writes about a worker (pid, start time) is not modelled; the worker is the same record.
- RemoteResults.RemoteWorkerManager.AcceptRemoteResult: the aggregation of the job that follows is in `AggregateJobIfReady`; the job's status is an input of the remote handlers, and their log and result paths are left out.
- WorkerEnding.WorkerManager.StopWorker: a runtime that is reattached and then raises on being told to stop is not modelled.
- Sessions.Step: transcripts, diagnostics, metadata and runtime identity are left out; a runtime bridge answers or raises.
- StdioTransport.ChunkingIndependent: chunks are text; how `String(chunk)` decodes a chunk that ends inside a character is not modelled. Parsing a line is a parameter, and the timestamps of outputs are left out.
- StdioTransport.HandoffIsGapFree: a reader's callback is taken to accept what it is given; one that throws ends its replay.
- EventDelivery.DeliveredExactlyOnce: is about runs in which the callback returns whenever it is called; what a poll whose callback raises leaves undelivered is in `EventLoss`. After unsubscribing a listing that is still on its way is delivered; unsubscribing is not a step of the model.
- ArtifactIndex.BuildArtifactIndexCache: the order in which the index file is sorted when it is persisted is left out; entity caches and queries of the stores add only list filters.
