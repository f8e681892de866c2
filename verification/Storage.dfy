/** The account's storage counters: server/internal/boards/storage_quota.go.

    `Measured` recomputes from the rows what the incremental counters stand for. */
module Storage {
  import opened Basics
  import opened Boards

  datatype Limits = Limits(tasks: nat, bytes: nat)

  // ---------------------------------------------------------------- the recomputed sum

  function TaskSizes(tasks: map<Id, Task>): map<Id, int> {
    map id | id in tasks :: TaskBytes(tasks[id])
  }

  function EntrySizes(entries: map<Id, Entry>): map<Id, int> {
    map e | e in entries :: |entries[e].body|
  }

  ghost function Measured(tasks: map<Id, Task>, entries: map<Id, Entry>): Usage {
    Usage(|tasks.Keys|, Sum(TaskSizes(tasks)) + Sum(EntrySizes(entries)))
  }

  /** Every entry belongs to a stored task. */
  ghost predicate EntriesAttached(tasks: map<Id, Task>, entries: map<Id, Entry>) {
    forall e :: e in entries ==> entries[e].task in tasks
  }

  function EntriesOf(entries: map<Id, Entry>, ids: set<Id>): map<Id, Entry> {
    map e | e in entries && entries[e].task in ids :: entries[e]
  }

  /** The bytes each of some tasks accounts for: its own and those of its entries. */
  ghost function StorageOf(tasks: map<Id, Task>, entries: map<Id, Entry>, ids: set<Id>): map<Id, int> {
    map id | id in tasks && id in ids :: TaskBytes(tasks[id]) + Sum(EntrySizes(EntriesOf(entries, {id})))
  }

  lemma {:induction false} EntriesSplit(entries: map<Id, Entry>, ids: set<Id>, id: Id)
    requires id in ids
    ensures Sum(EntrySizes(EntriesOf(entries, ids)))
         == Sum(EntrySizes(EntriesOf(entries, {id}))) + Sum(EntrySizes(EntriesOf(entries, ids - {id})))
  {
    hide Sum;
    var all, some := EntrySizes(EntriesOf(entries, ids)), EntriesOf(entries, {id});
    SumSplit(all, some.Keys);
    assert Restrict(all, some.Keys) == EntrySizes(some);
    assert all - some.Keys == EntrySizes(EntriesOf(entries, ids - {id}));
  }

  lemma {:induction false} StorageOfSum(tasks: map<Id, Task>, entries: map<Id, Entry>, ids: set<Id>)
    requires ids <= tasks.Keys
    ensures Sum(StorageOf(tasks, entries, ids))
         == Sum(Restrict(TaskSizes(tasks), ids)) + Sum(EntrySizes(EntriesOf(entries, ids)))
    decreases |ids|
  {
    hide Sum;
    if id :| id in ids {
      StorageOfSum(tasks, entries, ids - {id});
      var storage, sizes := StorageOf(tasks, entries, ids), Restrict(TaskSizes(tasks), ids);
      SumTake(storage, id);
      assert storage - {id} == StorageOf(tasks, entries, ids - {id});
      SumTake(sizes, id);
      assert sizes - {id} == Restrict(TaskSizes(tasks), ids - {id});
      EntriesSplit(entries, ids, id);
    } else {
      SumEmpty(EntrySizes(EntriesOf(entries, ids)));
      SumEmpty(StorageOf(tasks, entries, ids));
      SumEmpty(Restrict(TaskSizes(tasks), ids));
    }
  }

  // ---------------------------------------------------------------- how each write changes it

  lemma {:induction false} MeasuredNonNegative(tasks: map<Id, Task>, entries: map<Id, Entry>)
    ensures Measured(tasks, entries).tasks >= 0 && Measured(tasks, entries).bytes >= 0
  {
    SumNonNegative(TaskSizes(tasks));
    SumNonNegative(EntrySizes(entries));
  }

  lemma {:induction false} CountAfterAdding(tasks: map<Id, Task>, id: Id, task: Task)
    requires id !in tasks
    ensures |tasks[id := task].Keys| == |tasks.Keys| + 1
  {
    assert tasks[id := task].Keys == tasks.Keys + {id};
  }

  lemma {:induction false} CountAfterDeleting(tasks: map<Id, Task>, ids: set<Id>)
    requires ids <= tasks.Keys
    ensures |(tasks - ids).Keys| == |tasks.Keys| - |ids|
  {
    assert (tasks - ids).Keys == tasks.Keys - ids;
  }

  lemma {:induction false} MeasuredAddTask(tasks: map<Id, Task>, entries: map<Id, Entry>, id: Id, task: Task)
    requires id !in tasks
    ensures Measured(tasks[id := task], entries)
         == Usage(Measured(tasks, entries).tasks + 1, Measured(tasks, entries).bytes + TaskBytes(task))
  {
    hide Sum;
    SumPut(TaskSizes(tasks), id, TaskBytes(task));
    assert TaskSizes(tasks[id := task]) == TaskSizes(tasks)[id := TaskBytes(task)];
    CountAfterAdding(tasks, id, task);
  }

  /** Rows rewritten in place: only the rewritten contents count. */
  lemma {:induction false} MeasuredEdit(tasks: map<Id, Task>, tasks': map<Id, Task>, entries: map<Id, Entry>, id: Id)
    requires id in tasks && tasks'.Keys == tasks.Keys
    requires forall other :: other in tasks && other != id ==> tasks'[other].content == tasks[other].content
    ensures Measured(tasks', entries)
         == Usage(Measured(tasks, entries).tasks, Measured(tasks, entries).bytes + TaskBytes(tasks'[id]) - TaskBytes(tasks[id]))
  {
    hide Sum;
    SumPut(TaskSizes(tasks), id, TaskBytes(tasks'[id]));
    assert TaskSizes(tasks') == TaskSizes(tasks)[id := TaskBytes(tasks'[id])];
    assert |tasks'.Keys| == |tasks.Keys|;
  }

  lemma {:induction false} MeasuredSameContent(tasks: map<Id, Task>, tasks': map<Id, Task>, entries: map<Id, Entry>)
    requires tasks'.Keys == tasks.Keys
    requires forall id :: id in tasks ==> tasks'[id].content == tasks[id].content
    ensures Measured(tasks', entries) == Measured(tasks, entries)
  {
    hide Sum;
    assert TaskSizes(tasks') == TaskSizes(tasks);
    assert |tasks'.Keys| == |tasks.Keys|;
  }

  lemma {:induction false} MeasuredAddEntry(tasks: map<Id, Task>, entries: map<Id, Entry>, id: Id, entry: Entry)
    requires id !in entries
    ensures Measured(tasks, entries[id := entry])
         == Usage(Measured(tasks, entries).tasks, Measured(tasks, entries).bytes + |entry.body|)
  {
    hide Sum;
    SumPut(EntrySizes(entries), id, |entry.body|);
    assert EntrySizes(entries[id := entry]) == EntrySizes(entries)[id := |entry.body|];
  }

  /** Deleting tasks with their entries takes away exactly what the per-task sums say. */
  lemma {:induction false} MeasuredDelete(tasks: map<Id, Task>, entries: map<Id, Entry>, ids: set<Id>)
    requires ids <= tasks.Keys
    ensures Measured(tasks - ids, entries - EntriesOf(entries, ids).Keys)
         == Usage(Measured(tasks, entries).tasks - |ids|, Measured(tasks, entries).bytes - Sum(StorageOf(tasks, entries, ids)))
  {
    hide Sum;
    StorageOfSum(tasks, entries, ids);
    DeletedTasks(tasks, ids);
    DeletedEntries(entries, ids);
    CountAfterDeleting(tasks, ids);
  }

  lemma {:induction false} DeletedTasks(tasks: map<Id, Task>, ids: set<Id>)
    ensures Sum(TaskSizes(tasks - ids)) == Sum(TaskSizes(tasks)) - Sum(Restrict(TaskSizes(tasks), ids))
  {
    hide Sum;
    SumSplit(TaskSizes(tasks), ids);
    assert TaskSizes(tasks) - ids == TaskSizes(tasks - ids);
  }

  lemma {:induction false} DeletedEntries(entries: map<Id, Entry>, ids: set<Id>)
    ensures Sum(EntrySizes(entries - EntriesOf(entries, ids).Keys))
         == Sum(EntrySizes(entries)) - Sum(EntrySizes(EntriesOf(entries, ids)))
  {
    hide Sum;
    var gone := EntriesOf(entries, ids);
    SumSplit(EntrySizes(entries), gone.Keys);
    assert Restrict(EntrySizes(entries), gone.Keys) == EntrySizes(gone);
    assert EntrySizes(entries) - gone.Keys == EntrySizes(entries - gone.Keys);
  }

  // ---------------------------------------------------------------- charging

  /** The counters after a change, or why it is refused. */
  function Charged(limits: Limits, usage: Usage, taskDelta: int, byteDelta: int): Result<Usage, Error> {
    if taskDelta == 0 && byteDelta == 0 then Ok(usage)
    else if taskDelta > 0 && usage.tasks + taskDelta > limits.tasks then Err(StoredTaskLimit)
    else if byteDelta > 0 && usage.bytes + byteDelta > limits.bytes then Err(StoredContentLimit)
    else
      var projected := Usage(usage.tasks + taskDelta, usage.bytes + byteDelta);
      if projected.tasks < 0 || projected.bytes < 0 then Err(NegativeCounters) else Ok(projected)
  }

  /** An accepted change moves the counters by exactly its size; what grows ends within its limit. */
  lemma ChargedMeans(limits: Limits, usage: Usage, taskDelta: int, byteDelta: int)
    requires Charged(limits, usage, taskDelta, byteDelta).Ok?
    ensures var after := Charged(limits, usage, taskDelta, byteDelta).value;
            && after == Usage(usage.tasks + taskDelta, usage.bytes + byteDelta)
            && (taskDelta > 0 ==> after.tasks <= limits.tasks)
            && (byteDelta > 0 ==> after.bytes <= limits.bytes)
  {
  }

  /** A change is accepted exactly if what grows ends within its limit and nothing goes below zero; no change always is. */
  lemma {:induction false} ChargedExactly(limits: Limits, usage: Usage, taskDelta: int, byteDelta: int)
    ensures Charged(limits, usage, taskDelta, byteDelta).Ok? <==>
      || (taskDelta == 0 && byteDelta == 0)
      || (&& (taskDelta > 0 ==> usage.tasks + taskDelta <= limits.tasks) && usage.tasks + taskDelta >= 0
          && (byteDelta > 0 ==> usage.bytes + byteDelta <= limits.bytes) && usage.bytes + byteDelta >= 0)
    ensures var r, tasksOver, bytesOver := Charged(limits, usage, taskDelta, byteDelta),
                taskDelta > 0 && usage.tasks + taskDelta > limits.tasks, byteDelta > 0 && usage.bytes + byteDelta > limits.bytes;
      && (r == Err(StoredTaskLimit) <==> tasksOver)
      && (r == Err(StoredContentLimit) <==> bytesOver && !tasksOver)
      && (r.Err? && !tasksOver && !bytesOver ==> r == Err(NegativeCounters))
  {
  }

  /** The locked counters of one transaction. */
  class StorageQuota {
    const limits: Limits
    var usage: Usage

    constructor (limits: Limits, usage: Usage)
      ensures this.limits == limits && this.usage == usage
    {
      this.limits, this.usage := limits, usage;
    }

    method Apply(taskDelta: int, byteDelta: int) returns (r: Result<(), Error>)
      modifies this
      ensures r.Ok? <==> Charged(limits, old(usage), taskDelta, byteDelta).Ok?
      ensures r.Ok? ==> usage == Charged(limits, old(usage), taskDelta, byteDelta).value
      ensures r.Err? ==> usage == old(usage) && r.error == Charged(limits, old(usage), taskDelta, byteDelta).error
    {
      if taskDelta == 0 && byteDelta == 0 {
        return Ok(());
      }
      if taskDelta > 0 && usage.tasks + taskDelta > limits.tasks {
        return Err(StoredTaskLimit);
      }
      if byteDelta > 0 && usage.bytes + byteDelta > limits.bytes {
        return Err(StoredContentLimit);
      }
      var projected := Usage(usage.tasks + taskDelta, usage.bytes + byteDelta);
      if projected.tasks < 0 || projected.bytes < 0 {
        return Err(NegativeCounters);
      }
      usage := projected;
      return Ok(());
    }
  }

  /** The loop that adds up the rows about to be deleted, in whatever order they come. */
  method LockedTaskStorage(rows: map<Id, int>) returns (usage: Usage)
    ensures usage == Usage(|rows|, Sum(rows))
  {
    usage := Usage(0, 0);
    var left := rows;
    while left.Keys != {}
      invariant usage == Usage(|rows| - |left|, Sum(rows) - Sum(left))
      decreases |left|
    {
      var id :| id in left.Keys;
      SumTake(left, id);
      assert left.Keys == (left - {id}).Keys + {id};
      usage := Usage(usage.tasks + 1, usage.bytes + left[id]);
      left := left - {id};
    }
    assert left == map[];
  }
}
