/** `JobQueue`: an array of entries and a counter that only grows; the array is sorted on every read. */
module InMemoryQueue {
  import opened Wrappers
  import opened Models
  import opened QueueSpec
  import opened QueueEntries

  class JobQueue {
    var entries: seq<Entry>
    var sequence: nat

    ghost predicate Valid()
      reads this
    {
      && Increasing(entries)
      && (forall i :: 0 <= i < |entries| ==> entries[i].sequence < sequence)
      && OnePerId(Jobs(entries))
    }

    function Contents(): seq<Job>
      reads this
    {
      Jobs(entries)
    }

    constructor ()
      ensures Valid() && Contents() == []
    {
      entries, sequence := [], 0;
    }

    method FindIndex(jobId: JobId) returns (index: int)
      ensures -1 <= index < |entries|
      ensures index == -1 ==> !Holds(Contents(), jobId)
      ensures index != -1 ==> entries[index].job.jobId == jobId && Holds(Contents(), jobId)
    {
      index := 0;
      while index < |entries|
        invariant 0 <= index <= |entries|
        invariant forall k :: 0 <= k < index ==> entries[k].job.jobId != jobId
      {
        if entries[index].job.jobId == jobId {
          assert Contents()[index].jobId == jobId;
          return;
        }
        index := index + 1;
      }
      index := -1;
    }

    method Remove(jobId: JobId) returns (removed: bool)
      requires Valid()
      modifies this
      ensures Valid() && Contents() == QueueSpec.Remove(old(Contents()), jobId)
              && removed == Holds(old(Contents()), jobId)
      ensures sequence == old(sequence)
    {
      var index := FindIndex(jobId);
      if index == -1 {
        RemoveAbsent(Contents(), jobId);
        return false;
      }
      SpliceKeeps(entries, index);
      entries := Without(entries, index);
      removed := true;
    }

    method Enqueue(job: Job)
      requires Valid()
      modifies this
      ensures Valid() && Contents() == QueueSpec.Enqueue(old(Contents()), job)
    {
      RemovedIsGone(Contents(), job.jobId);
      var _ := Remove(job.jobId);
      PushKeeps(entries, Entry(job, sequence));
      entries := entries + [Entry(job, sequence)];
      sequence := sequence + 1;
    }

    method GetOrderedEntries() returns (ordered: seq<Entry>)
      requires Valid()
      ensures Sorted(ordered) && Jobs(ordered) == Listed(Contents())
      ensures forall e :: e in ordered <==> e in entries
    {
      ordered := Sort(entries);
      SortSorts(entries);
      SortedListsJobs(ordered, entries);
    }

    method Peek() returns (job: Option<Job>)
      requires Valid()
      ensures JobReply(job) == Step(Contents(), PeekOp).1
    {
      var ordered := GetOrderedEntries();
      job := if ordered == [] then None else Some(ordered[0].job);
    }

    method Dequeue() returns (job: Option<Job>)
      requires Valid()
      modifies this
      ensures Valid() && (Contents(), JobReply(job)) == Step(old(Contents()), DequeueOp)
    {
      var ordered := GetOrderedEntries();
      if ordered == [] {
        return None;
      }
      var next := ordered[0];
      RemoveEntry(next);
      job := Some(next.job);
    }

    method RemoveEntry(entry: Entry)
      requires Valid() && entry in entries
      modifies this
      ensures Valid() && Contents() == QueueSpec.Remove(old(Contents()), entry.job.jobId)
    {
      var index := 0;
      while index < |entries| && !(entries[index].job.jobId == entry.job.jobId
          && entries[index].sequence == entry.sequence)
        invariant 0 <= index <= |entries|
        invariant entry !in entries[..index]
      {
        index := index + 1;
      }
      assert index < |entries|;
      SpliceKeeps(entries, index);
      entries := Without(entries, index);
    }

    method Size() returns (size: nat)
      ensures SizeReply(size) == Step(Contents(), SizeOp).1
    {
      size := |entries|;
    }

    method List() returns (jobs: seq<Job>)
      requires Valid()
      ensures ListReply(jobs) == Step(Contents(), ListOp).1
    {
      var ordered := GetOrderedEntries();
      jobs := Jobs(ordered);
    }
  }
}

/**
 `SqliteDispatchQueue`: a table keyed by job id. A new row takes the largest live sequence plus one, so numbers
 are used again after the rows that had them are gone.
 */
module SqliteQueue {
  import opened Wrappers
  import opened Models
  import opened QueueSpec
  import opened QueueEntries

  /** The table holds exactly the entries of `log`, each under its job id. */
  ghost predicate RowsOf(rows: map<JobId, Entry>, log: seq<Entry>) {
    && (forall e :: e in log ==> e.job.jobId in rows && rows[e.job.jobId] == e)
    && (forall id :: id in rows ==> rows[id].job.jobId == id && rows[id] in log)
  }

  ghost predicate Good(rows: map<JobId, Entry>, log: seq<Entry>) {
    Increasing(log) && OnePerId(Jobs(log)) && RowsOf(rows, log) && |rows| == |log|
  }

  lemma RowIndex(rows: map<JobId, Entry>, log: seq<Entry>, jobId: JobId) returns (index: nat)
    requires RowsOf(rows, log) && jobId in rows
    ensures index < |log| && log[index] == rows[jobId] && log[index].job.jobId == jobId && Holds(Jobs(log), jobId)
  {
    index :| 0 <= index < |log| && log[index] == rows[jobId];
    assert Jobs(log)[index].jobId == jobId;
  }

  lemma AbsentRow(rows: map<JobId, Entry>, log: seq<Entry>, jobId: JobId)
    requires RowsOf(rows, log) && jobId !in rows
    ensures !Holds(Jobs(log), jobId)
  {
    forall i | 0 <= i < |log| ensures log[i].job.jobId != jobId {
      assert log[i] in log;
    }
  }

  lemma DeletedRowsOf(rows: map<JobId, Entry>, log: seq<Entry>, index: nat)
    requires index < |log| && Increasing(log) && OnePerId(Jobs(log)) && RowsOf(rows, log)
    ensures RowsOf(rows - {log[index].job.jobId}, Without(log, index))
  {
    SpliceKeeps(log, index);
    SpliceMembers(log, index);
    var jobId := log[index].job.jobId;
    assert log[index] in log;
    RemovedIsGone(Jobs(log), jobId);
    forall e | e in Without(log, index) ensures e.job.jobId != jobId {
      var k :| 0 <= k < |Without(log, index)| && Without(log, index)[k] == e;
      assert Jobs(Without(log, index))[k].jobId != jobId;
    }
  }

  lemma DeletePresent(rows: map<JobId, Entry>, log: seq<Entry>, jobId: JobId, index: nat)
    requires Good(rows, log) && jobId in rows && index < |log| && log[index].job.jobId == jobId
    ensures Good(rows - {jobId}, Without(log, index)) && Jobs(Without(log, index)) == QueueSpec.Remove(Jobs(log), jobId)
  {
    SpliceKeeps(log, index);
    DeletedRowsOf(rows, log, index);
    assert (rows - {jobId}).Keys == rows.Keys - {jobId};
  }

  lemma DeleteAbsent(rows: map<JobId, Entry>, log: seq<Entry>, jobId: JobId)
    requires Good(rows, log) && jobId !in rows
    ensures rows - {jobId} == rows && Jobs(log) == QueueSpec.Remove(Jobs(log), jobId) && !Holds(Jobs(log), jobId)
  {
    AbsentRow(rows, log, jobId);
    RemoveAbsent(Jobs(log), jobId);
  }

  lemma DeleteRow(rows: map<JobId, Entry>, log: seq<Entry>, jobId: JobId) returns (rest: seq<Entry>)
    requires Good(rows, log)
    ensures Good(rows - {jobId}, rest) && Jobs(rest) == QueueSpec.Remove(Jobs(log), jobId)
    ensures jobId in rows <==> Holds(Jobs(log), jobId)
  {
    if jobId in rows {
      var index := RowIndex(rows, log, jobId);
      DeletePresent(rows, log, jobId, index);
      rest := Without(log, index);
    } else {
      DeleteAbsent(rows, log, jobId);
      rest := log;
    }
  }

  lemma InsertRow(rows: map<JobId, Entry>, log: seq<Entry>, row: Entry)
    requires Good(rows, log) && row.job.jobId !in rows
    requires forall id :: id in rows ==> rows[id].sequence < row.sequence
    ensures Good(rows[row.job.jobId := row], log + [row]) && Jobs(log + [row]) == Jobs(log) + [row.job]
  {
    AbsentRow(rows, log, row.job.jobId);
    assert forall i :: 0 <= i < |log| ==> log[i] in log;
    PushKeeps(log, row);
    assert (log + [row])[|log|] == row;
  }

  class SqliteDispatchQueue {
    var rows: map<JobId, Entry>
    /** The rows in sequence order. */
    ghost var log: seq<Entry>

    ghost predicate Valid()
      reads this
    {
      Good(rows, log)
    }

    ghost function Contents(): seq<Job>
      reads this
    {
      Jobs(log)
    }

    constructor ()
      ensures Valid() && Contents() == []
    {
      rows, log := map[], [];
    }

    /** `coalesce(max(sequence), -1) + 1` */
    method NextSequence() returns (next: int)
      ensures rows == map[] ==> next == 0
      ensures rows != map[] ==> exists id :: id in rows && next == rows[id].sequence + 1
      ensures forall id :: id in rows ==> rows[id].sequence < next
    {
      var ids := rows.Keys;
      if ids == {} {
        return 0;
      }
      var id :| id in ids;
      ids := ids - {id};
      var max := rows[id].sequence;
      while ids != {}
        invariant ids <= rows.Keys
        invariant forall k :: k in rows && k !in ids ==> rows[k].sequence <= max
        invariant exists k :: k in rows && rows[k].sequence == max
        decreases |ids|
      {
        id :| id in ids;
        ids := ids - {id};
        if rows[id].sequence > max {
          max := rows[id].sequence;
        }
      }
      next := max + 1;
    }

    /** `delete from dispatch_queue where job_id = ?` */
    method Remove(jobId: JobId) returns (removed: bool)
      requires Valid()
      modifies this
      ensures Valid() && Contents() == QueueSpec.Remove(old(Contents()), jobId)
              && removed == Holds(old(Contents()), jobId)
      ensures rows == old(rows) - {jobId}
    {
      removed := jobId in rows;
      ghost var rest := DeleteRow(rows, log, jobId);
      rows, log := rows - {jobId}, rest;
    }

    method Insert(job: Job)
      requires Valid() && job.jobId !in rows
      modifies this
      ensures Valid() && Contents() == old(Contents()) + [job]
    {
      var sequence := NextSequence();
      var row := Entry(job, sequence);
      InsertRow(rows, log, row);
      rows := rows[job.jobId := row];
      log := log + [row];
    }

    method Enqueue(job: Job)
      requires Valid()
      modifies this
      ensures Valid() && Contents() == QueueSpec.Enqueue(old(Contents()), job)
    {
      var _ := Remove(job.jobId);
      Insert(job);
    }

    /** `select ... order by priority_rank desc, sequence asc` */
    method SelectOrdered() returns (ordered: seq<Entry>)
      requires Valid()
      ensures Sorted(ordered) && Jobs(ordered) == Listed(Contents())
      ensures forall e :: e in ordered ==> e.job.jobId in rows
    {
      var selected: seq<Entry> := [];
      var ids := rows.Keys;
      while ids != {}
        invariant ids <= rows.Keys
        invariant forall e :: e in selected <==> e.job.jobId in rows && e.job.jobId !in ids && rows[e.job.jobId] == e
        invariant DistinctSequences(selected)
        decreases |ids|
      {
        var id :| id in ids;
        assert forall i :: 0 <= i < |selected| ==> selected[i] in selected;
        assert forall e :: e in selected ==>
          e in log && rows[id] in log && e != rows[id] && e.sequence != rows[id].sequence;
        ids := ids - {id};
        selected := selected + [rows[id]];
      }
      ordered := Sort(selected);
      SortSorts(selected);
      assert forall e :: e in selected <==> e in log;
      SortedListsJobs(ordered, log);
    }

    method Peek() returns (job: Option<Job>)
      requires Valid()
      ensures JobReply(job) == Step(Contents(), PeekOp).1
    {
      var ordered := SelectOrdered();
      job := if ordered == [] then None else Some(ordered[0].job);
    }

    method Dequeue() returns (job: Option<Job>)
      requires Valid()
      modifies this
      ensures Valid() && (Contents(), JobReply(job)) == Step(old(Contents()), DequeueOp)
    {
      var ordered := SelectOrdered();
      if ordered == [] {
        return None;
      }
      var next := ordered[0].job;
      var _ := Remove(next.jobId);
      job := Some(next);
    }

    /** `select count(*) from dispatch_queue` */
    method Size() returns (size: nat)
      requires Valid()
      ensures SizeReply(size) == Step(Contents(), SizeOp).1
    {
      size := |rows|;
    }

    method List() returns (jobs: seq<Job>)
      requires Valid()
      ensures ListReply(jobs) == Step(Contents(), ListOp).1
    {
      var ordered := SelectOrdered();
      jobs := Jobs(ordered);
    }
  }
}

/** Both queues, driven by the same run of operations, answer alike at every step. */
module QueueRefinement {
  import opened Models
  import opened QueueSpec
  import InMemoryQueue
  import SqliteQueue

  method CallInMemory(queue: InMemoryQueue.JobQueue, op: Op) returns (reply: Reply)
    requires queue.Valid()
    modifies queue
    ensures queue.Valid() && (queue.Contents(), reply) == Step(old(queue.Contents()), op)
  {
    match op
    case EnqueueOp(job) => queue.Enqueue(job); reply := Done;
    case DequeueOp => var job := queue.Dequeue(); reply := JobReply(job);
    case PeekOp => var job := queue.Peek(); reply := JobReply(job);
    case RemoveOp(jobId) => var removed := queue.Remove(jobId); reply := BoolReply(removed);
    case SizeOp => var size := queue.Size(); reply := SizeReply(size);
    case ListOp => var jobs := queue.List(); reply := ListReply(jobs);
  }

  method CallSqlite(queue: SqliteQueue.SqliteDispatchQueue, op: Op) returns (reply: Reply)
    requires queue.Valid()
    modifies queue
    ensures queue.Valid() && (queue.Contents(), reply) == Step(old(queue.Contents()), op)
  {
    match op
    case EnqueueOp(job) => queue.Enqueue(job); reply := Done;
    case DequeueOp => var job := queue.Dequeue(); reply := JobReply(job);
    case PeekOp => var job := queue.Peek(); reply := JobReply(job);
    case RemoveOp(jobId) => var removed := queue.Remove(jobId); reply := BoolReply(removed);
    case SizeOp => var size := queue.Size(); reply := SizeReply(size);
    case ListOp => var jobs := queue.List(); reply := ListReply(jobs);
  }

  lemma {:induction false} RunAppend(q: seq<Job>, ops: seq<Op>, op: Op)
    ensures Run(q, ops + [op]) == Step(Run(q, ops), op).0
    ensures Replies(q, ops + [op]) == Replies(q, ops) + [Step(Run(q, ops), op).1]
    decreases |ops|
  {
    if ops != [] {
      assert (ops + [op])[1..] == ops[1..] + [op];
      RunAppend(Step(q, ops[0]).0, ops[1..], op);
    } else {
      assert ops + [op] == [op] && [op][1..] == [];
    }
  }

  /** A run one operation longer. */
  lemma RunNext(ops: seq<Op>, i: nat)
    requires i < |ops|
    ensures Run([], ops[..i + 1]) == Step(Run([], ops[..i]), ops[i]).0
    ensures Replies([], ops[..i + 1]) == Replies([], ops[..i]) + [Step(Run([], ops[..i]), ops[i]).1]
  {
    RunAppend([], ops[..i], ops[i]);
    assert ops[..i + 1] == ops[..i] + [ops[i]];
  }

  method CallBoth(first: InMemoryQueue.JobQueue, second: SqliteQueue.SqliteDispatchQueue, op: Op)
    returns (reply: Reply, reply': Reply)
    requires first.Valid() && second.Valid() && first.Contents() == second.Contents()
    modifies first, second
    ensures first.Valid() && second.Valid() && first.Contents() == second.Contents() ==
            Step(old(first.Contents()), op).0
    ensures reply == reply' == Step(old(first.Contents()), op).1
  {
    reply := CallInMemory(first, op);
    reply' := CallSqlite(second, op);
  }

  /** Every run of operations on two fresh queues yields the replies of the specification, from both. */
  method RunBoth(ops: seq<Op>) returns (inMemory: seq<Reply>, sqlite: seq<Reply>)
    ensures inMemory == sqlite == Replies([], ops)
  {
    var first := new InMemoryQueue.JobQueue();
    var second := new SqliteQueue.SqliteDispatchQueue();
    inMemory, sqlite := [], [];
    for i := 0 to |ops|
      invariant first.Valid() && second.Valid()
      invariant first.Contents() == second.Contents() == Run([], ops[..i])
      invariant inMemory == sqlite == Replies([], ops[..i])
    {
      var reply, reply' := CallBoth(first, second, ops[i]);
      RunNext(ops, i);
      inMemory, sqlite := inMemory + [reply], sqlite + [reply'];
    }
    assert ops[..|ops|] == ops;
  }

  lemma {:induction false} RunKeepsOnePerId(q: seq<Job>, ops: seq<Op>)
    requires OnePerId(q)
    ensures OnePerId(Run(q, ops))
    decreases |ops|
  {
    if ops != [] {
      QueueStepKeepsOnePerId(q, ops[0]);
      RunKeepsOnePerId(Step(q, ops[0]).0, ops[1..]);
    }
  }
}
