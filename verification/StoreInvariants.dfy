/** What every transaction of the store keeps, and hence what holds in every reachable account. */
module StoreInvariants {
  import opened Basics
  import opened Boards
  import opened Workflow
  import Enumeration
  import opened Ordering
  import opened Storage
  import opened SubtaskOrder
  import opened Store

  // ---------------------------------------------------------------- the invariant

  ghost predicate FlowsOk(tasks: map<Id, Task>) {
    forall id :: id in tasks ==> FlowOk(tasks[id].flow)
  }

  /** Every task is in a list of the account. */
  ghost predicate Housed(tasks: map<Id, Task>, buckets: set<Id>) {
    forall id :: id in tasks ==> tasks[id].place.bucket in buckets
  }

  /** One entry per task, author and idempotency key. */
  ghost predicate OneEntryPerKey(entries: map<Id, Entry>) {
    forall e, f :: e in entries && f in entries && SameKey(entries[e], entries[f].task, entries[f].author, entries[f].key) ==> e == f
  }

  /** A key that still knows its task was stored by the request that created it. */
  ghost predicate KeysOk(keys: map<Text, KeyRecord>, tasks: map<Id, Task>) {
    forall key :: key in keys ==>
      && keys[key].data.CurrentData?
      && (keys[key].task.Some? ==>
            keys[key].task.value in tasks && tasks[keys[key].task.value].place.parent == keys[key].data.parent)
  }

  /** The shape of the rows, the counters apart. */
  ghost predicate RowsOk(b: Board) {
    && FlowsOk(b.tasks)
    && Nested(b.tasks)
    && Housed(b.tasks, b.buckets.Keys)
    && EntriesAttached(b.tasks, b.entries)
    && OneEntryPerKey(b.entries)
    && KeysOk(b.keys, b.tasks)
  }

  ghost predicate Inv(b: Board) {
    RowsOk(b) && b.usage == Measured(b.tasks, b.entries)
  }

  // ---------------------------------------------------------------- rows rewritten in place

  /** No task changes its parent, and none leaves the list its parent is in. */
  ghost predicate SameHomes(tasks: map<Id, Task>, tasks': map<Id, Task>) {
    && tasks'.Keys == tasks.Keys
    && forall id :: id in tasks ==>
         tasks'[id].place.parent == tasks[id].place.parent && tasks'[id].place.bucket == tasks[id].place.bucket
  }

  /** A top-level task goes to another list with all its subtasks. */
  ghost predicate MovedHome(tasks: map<Id, Task>, tasks': map<Id, Task>, id: Id, bucket: Id) {
    && tasks'.Keys == tasks.Keys
    && forall other :: other in tasks ==>
         && tasks'[other].place.parent == tasks[other].place.parent
         && tasks'[other].place.bucket
            == (if other == id || tasks[other].place.parent == Some(id) then bucket else tasks[other].place.bucket)
  }

  lemma {:induction false} MovedHomeKeeps(tasks: map<Id, Task>, tasks': map<Id, Task>, id: Id, bucket: Id, buckets: set<Id>)
    requires MovedHome(tasks, tasks', id, bucket) && id in tasks && tasks[id].place.parent.None?
    requires Nested(tasks) && Housed(tasks, buckets) && bucket in buckets
    ensures Nested(tasks') && Housed(tasks', buckets)
  {
  }

  lemma {:induction false} SameHomesKeeps(tasks: map<Id, Task>, tasks': map<Id, Task>, buckets: set<Id>)
    requires SameHomes(tasks, tasks') && Nested(tasks) && Housed(tasks, buckets)
    ensures Nested(tasks') && Housed(tasks', buckets)
  {
  }

  /** Rewriting rows without adding or removing any keeps what entries and keys say about them. */
  lemma {:induction false} RewriteKeeps(b: Board, tasks': map<Id, Task>)
    requires RowsOk(b) && FlowsOk(tasks') && Nested(tasks') && Housed(tasks', b.buckets.Keys)
    requires tasks'.Keys == b.tasks.Keys && forall id :: id in b.tasks ==> tasks'[id].place.parent == b.tasks[id].place.parent
    ensures RowsOk(b.(tasks := tasks'))
  {
  }

  /** `rows` relate to the account's tasks as a list change leaves them: same workflow, same parents. */
  ghost predicate Rearranged(b: Board, rows: map<Id, Task>) {
    && rows.Keys == b.tasks.Keys
    && Nested(rows) && Housed(rows, b.buckets.Keys)
    && forall other :: other in b.tasks ==>
         && rows[other].content == b.tasks[other].content && rows[other].flow == b.tasks[other].flow
         && rows[other].place.parent == b.tasks[other].place.parent
  }

  /** One row written over rearranged rows. */
  lemma {:induction false} RowWrittenKeeps(b: Board, rows: map<Id, Task>, id: Id, task: Task)
    requires RowsOk(b) && Rearranged(b, rows) && id in rows && FlowOk(task.flow)
    requires task.place.parent == rows[id].place.parent && task.place.bucket == rows[id].place.bucket
    ensures RowsOk(b.(tasks := rows[id := task]))
  {
    var tasks' := rows[id := task];
    assert SameHomes(rows, tasks');
    SameHomesKeeps(rows, tasks', b.buckets.Keys);
    RewriteKeeps(b, tasks');
  }

  lemma {:induction false} UnmovedRearranged(b: Board)
    requires RowsOk(b)
    ensures Rearranged(b, b.tasks)
  {
  }

  // ---------------------------------------------------------------- creation

  lemma {:induction false} CreateKeeps(b: Board, draft: Draft, endpoint: Endpoint, inbox: Id, id: Id, now: int)
    requires Inv(b) && CreateTask(b, draft, endpoint, inbox, id, now).Ok?
    ensures Inv(CreateTask(b, draft, endpoint, inbox, id, now).value.0)
  {
    var p := PrepareTaskCreate(if endpoint.ParentEndpoint? then draft.(parent := Some(endpoint.id)) else draft, endpoint).value;
    if !(p.key.Some? && p.key.value in b.keys) {
      InsertKeeps(b, p, if endpoint.ListEndpoint? then endpoint.id else inbox, id, now);
    }
  }

  /** A new row, a subtask only of a top-level task and in its list. */
  ghost predicate Fits(b: Board, id: Id, task: Task) {
    && id !in b.tasks && FlowOk(task.flow) && task.place.bucket in b.buckets
    && (task.place.parent.Some? ==>
          && task.place.parent.value in b.tasks
          && b.tasks[task.place.parent.value].place.parent.None?
          && b.tasks[task.place.parent.value].place.bucket == task.place.bucket)
  }

  lemma {:induction false} AddedRowKeeps(b: Board, id: Id, task: Task, keys: map<Text, KeyRecord>)
    requires RowsOk(b) && Fits(b, id, task) && KeysOk(keys, b.tasks[id := task])
    ensures RowsOk(b.(tasks := b.tasks[id := task], keys := keys))
  {
    var tasks' := b.tasks[id := task];
    assert Nested(tasks') by {
      assert Nested(b.tasks);
    }
  }

  lemma {:induction false} AddedKeyKeeps(b: Board, id: Id, task: Task, key: Text, record: KeyRecord)
    requires KeysOk(b.keys, b.tasks) && id !in b.tasks
    requires record.data.CurrentData? && record.task == Some(id) && record.data.parent == task.place.parent
    ensures KeysOk(b.keys, b.tasks[id := task])
    ensures KeysOk(b.keys[key := record], b.tasks[id := task])
  {
  }

  /** The row and the key record of an accepted insertion. */
  lemma {:induction false} InsertShape(b: Board, p: Prepared, bucket: Id, id: Id, now: int)
    requires InsertTask(b, p, bucket, id, now).Ok?
    ensures var b' := InsertTask(b, p, bucket, id, now).value.0;
            && id in b'.tasks
            && Fits(b, id, b'.tasks[id])
            && b'.tasks[id].content == Content(p.title, p.description, p.date, p.kind, p.priority)
            && b'.tasks[id].place.parent == p.parent
            && var flow := b'.tasks[id].flow;
            && flow.assignee == p.assignee && flow.run == None && flow.reason == NoReason
            && (flow.assignee.Some? ==> flow.status == Queued && flow.assignee.value in b.agents)
            && (flow.assignee.None? ==> flow.status == if p.status.Some? then p.status.value else New)
            && b' == b.(tasks := b.tasks[id := b'.tasks[id]], keys := b'.keys, usage := b'.usage)
            && b'.keys == (if p.key.Some? then b.keys[p.key.value := KeyRecord(FingerprintOf(p), DataOf(p), Some(id))] else b.keys)
            && b'.usage == Usage(b.usage.tasks + 1, b.usage.bytes + TaskBytes(b'.tasks[id]))
  {
    hide NextOrder;
    ChargedMeans(b.limits, b.usage, 1, |p.title| + |p.description|);
  }

  lemma {:induction false} InsertKeeps(b: Board, p: Prepared, bucket: Id, id: Id, now: int)
    requires Inv(b) && InsertTask(b, p, bucket, id, now).Ok?
    ensures Inv(InsertTask(b, p, bucket, id, now).value.0)
  {
    hide InsertTask, Measured;
    var b' := InsertTask(b, p, bucket, id, now).value.0;
    InsertShape(b, p, bucket, id, now);
    var task := b'.tasks[id];
    assert KeysOk(b'.keys, b'.tasks) by {
      AddedKeyKeeps(b, id, task, if p.key.Some? then p.key.value else [], KeyRecord(FingerprintOf(p), DataOf(p), Some(id)));
    }
    AddedRowKeeps(b, id, task, b'.keys);
    MeasuredAddTask(b.tasks, b.entries, id, task);
  }

  // ---------------------------------------------------------------- update and move

  /** Given nesting, a list change is a move of a top-level task. */
  lemma {:induction false} ListChangeMeans(b: Board, id: Id, edit: TaskEdit)
    requires RowsOk(b) && id in b.tasks && ListChange(b, id, edit).Ok?
    ensures var rows := ListChange(b, id, edit).value;
            && Rearranged(b, rows)
            && (edit.bucket.Some? && edit.bucket.value != b.tasks[id].place.bucket ==>
                  && b.tasks[id].place.parent.None? && edit.sortOrder.None?
                  && MoveOk(b.tasks, rows, id, edit.bucket.value, 0))
            && (edit.bucket.None? || edit.bucket.value == b.tasks[id].place.bucket ==> rows == b.tasks)
  {
    if edit.bucket.Some? && edit.bucket.value != b.tasks[id].place.bucket {
      var bucket := edit.bucket.value;
      assert b.tasks[id].place.parent.None?;
      MoveMeans(b.tasks, id, bucket, 0);
      MovedRowsShape(b.tasks, MovedRows(b.tasks, id, bucket, 0), id, bucket, 0);
      MovedHomeKeeps(b.tasks, MovedRows(b.tasks, id, bucket, 0), id, bucket, b.buckets.Keys);
    }
  }

  /** A move changes nothing but places, and takes the subtasks along. */
  lemma {:induction false} MovedRowsShape(tasks: map<Id, Task>, rows: map<Id, Task>, id: Id, bucket: Id, position: nat)
    requires id in tasks && MoveOk(tasks, rows, id, bucket, position)
    ensures MovedHome(tasks, rows, id, bucket)
    ensures forall other :: other in tasks ==>
      rows[other].content == tasks[other].content && rows[other].flow == tasks[other].flow
  {
    hide Ordered, Numbered;
    var moved := {id} + ChildrenOf(tasks, id);
    forall other | other in tasks
      ensures rows[other].content == tasks[other].content && rows[other].flow == tasks[other].flow
      ensures rows[other].place.parent == tasks[other].place.parent
      ensures rows[other].place.bucket == if other in moved then bucket else tasks[other].place.bucket
    {
      assert Renumber(rows[other], 0) == Renumber(if other in moved then Relocate(tasks[other], bucket) else tasks[other], 0);
    }
  }

  /** The rows of an accepted update, over the rows of its list change. */
  lemma {:induction false} UpdateShape(b: Board, actor: Actor, id: Id, edit: TaskEdit)
    requires RowsOk(b) && UpdateTask(b, actor, id, edit).Ok?
    ensures var b' := UpdateTask(b, actor, id, edit).value;
            && id in b.tasks && id in b'.tasks && ListChange(b, id, edit).Ok?
            && b' == b.(tasks := b'.tasks, usage := b'.usage)
            && b'.tasks == ListChange(b, id, edit).value[id := b'.tasks[id]]
            && b'.tasks[id].place.parent == b.tasks[id].place.parent
            && b'.tasks[id].place.bucket == ListChange(b, id, edit).value[id].place.bucket
            && (edit.sortOrder.None? ==> b'.tasks[id].place == ListChange(b, id, edit).value[id].place)
            && (edit.sortOrder.Some? ==> b'.tasks[id].place.sortOrder == edit.sortOrder.value)
            && b'.tasks[id].content.title != []
            && FlowOk(b'.tasks[id].flow)
            && b'.usage == Usage(b.usage.tasks, b.usage.bytes + TaskBytes(b'.tasks[id]) - TaskBytes(b.tasks[id]))
  {
    hide ListChange, UpdatedFlow, EditedContent, RowsOk, MoveOk;
    ListChangeMeans(b, id, edit);
    var content := EditedContent(b.tasks[id].content, edit).value;
    assert FlowOk(b.tasks[id].flow) by {
      ApartFlow(b, id);
    }
    UpdatedFlowOk(b.tasks[id].flow, content.kind, edit.flow, actor.Person? && actor.allowWorking, b.agents);
    UnchangedBytes(b.tasks[id].content, edit);
    if edit.title.Some? || edit.description.Some? || edit.bucket.Some? {
      ChargedMeans(b.limits, b.usage, 0, |content.title| + |content.description| - TaskBytes(b.tasks[id]));
    }
  }

  lemma {:induction false} UnchangedBytes(content: Content, edit: TaskEdit)
    requires EditedContent(content, edit).Ok?
    ensures edit.title.None? && edit.description.None? ==>
      EditedContent(content, edit).value.title == content.title && EditedContent(content, edit).value.description == content.description
  {
  }

  lemma {:induction false} UpdateKeeps(b: Board, actor: Actor, id: Id, edit: TaskEdit)
    requires Inv(b) && UpdateTask(b, actor, id, edit).Ok?
    ensures Inv(UpdateTask(b, actor, id, edit).value)
  {
    hide UpdateTask, ListChange, MoveOk, RowsOk, Measured;
    var b' := UpdateTask(b, actor, id, edit).value;
    UpdateShape(b, actor, id, edit);
    var rows := ListChange(b, id, edit).value;
    ListChangeMeans(b, id, edit);
    RowWrittenKeeps(b, rows, id, b'.tasks[id]);
    assert RowsOk(b') by {
      UsageApart(b.(tasks := b'.tasks), b'.usage);
    }
    MeasuredEdit(b.tasks, b'.tasks, b.entries, id);
  }

  lemma {:induction false} UsageApart(b: Board, usage: Usage)
    requires RowsOk(b)
    ensures RowsOk(b.(usage := usage))
  {
  }

  /** The rows of an accepted move. */
  lemma {:induction false} MoveShape(b: Board, id: Id, bucket: Option<Id>, target: Target, status: Option<Parsed<Status>>)
    requires RowsOk(b) && MoveTask(b, id, bucket, target, status).Ok?
    ensures var b' := MoveTask(b, id, bucket, target, status).value;
            && id in b.tasks && b.tasks[id].place.parent.None? && bucket.Some? && bucket.value in b.buckets && TargetOk(target)
            && MovePosition(b.tasks, id, bucket.value, target).Ok?
            && var position := MovePosition(b.tasks, id, bucket.value, target).value;
            && position <= |OrderWithout(b.tasks, bucket.value, id)|
            && var rows := MovedRows(b.tasks, id, bucket.value, position);
            && MoveOk(b.tasks, rows, id, bucket.value, position)
            && id in b'.tasks
            && b' == b.(tasks := rows[id := rows[id].(flow := b'.tasks[id].flow)])
            && FlowOk(b'.tasks[id].flow)
  {
    hide MovedRows, OrderWithout, MovePosition;
    var task := b.tasks[id];
    if status.Some? {
      MovedFlowOk(task.flow, task.content.kind, status.value, b.agents);
    }
    var position := MovePosition(b.tasks, id, bucket.value, target).value;
    MoveMeans(b.tasks, id, bucket.value, position);
    MovedRowsShape(b.tasks, MovedRows(b.tasks, id, bucket.value, position), id, bucket.value, position);
  }

  lemma {:induction false} MoveKeeps(b: Board, id: Id, bucket: Option<Id>, target: Target, status: Option<Parsed<Status>>)
    requires Inv(b) && MoveTask(b, id, bucket, target, status).Ok?
    ensures Inv(MoveTask(b, id, bucket, target, status).value)
  {
    hide MoveTask, MovePosition, MovedRows, OrderWithout, MoveOk, Measured;
    var b' := MoveTask(b, id, bucket, target, status).value;
    MoveShape(b, id, bucket, target, status);
    var position := MovePosition(b.tasks, id, bucket.value, target).value;
    var rows := MovedRows(b.tasks, id, bucket.value, position);
    MovedRowsShape(b.tasks, rows, id, bucket.value, position);
    MovedHomeKeeps(b.tasks, rows, id, bucket.value, b.buckets.Keys);
    RowWrittenKeeps(b, rows, id, b'.tasks[id]);
    MeasuredSameContent(b.tasks, b'.tasks, b.entries);
  }

  // ---------------------------------------------------------------- claim and entries

  lemma {:induction false} ClaimKeeps(b: Board, caller: Option<Caller>, id: Id)
    requires Inv(b) && ClaimTask(b, caller, id).Ok?
    ensures Inv(ClaimTask(b, caller, id).value)
  {
    hide Measured, RowsOk;
    var b' := ClaimTask(b, caller, id).value;
    assert FlowOk(b.tasks[id].flow) by {
      ApartFlow(b, id);
    }
    UnmovedRearranged(b);
    RowWrittenKeeps(b, b.tasks, id, b'.tasks[id]);
    MeasuredSameContent(b.tasks, b'.tasks, b.entries);
  }

  lemma {:induction false} ApartFlow(b: Board, id: Id)
    requires RowsOk(b) && id in b.tasks
    ensures FlowOk(b.tasks[id].flow)
  {
  }

  /** An entry is stored only if its author has none under that key, whatever runs came and went. */
  lemma {:induction false} InsertedEntryIsNew(b: Board, caller: Option<Caller>, input: EntryInput, id: Id)
    requires EntryInputOk(caller, input) && !(exists e :: Replayed(b, caller, input, e)) && InsertEntry(b, caller, input, id).Ok?
    ensures forall e :: e in b.entries ==> !SameKey(b.entries[e], input.task, AuthorOf(caller), input.key)
  {
    forall e | e in b.entries
      ensures !SameKey(b.entries[e], input.task, AuthorOf(caller), input.key)
    {
      assert !Replayed(b, caller, input, e);
    }
  }

  lemma {:induction false} EntryKeeps(b: Board, caller: Option<Caller>, input: EntryInput, id: Id)
    requires Inv(b) && CreateTaskEntry(b, caller, input, id).Ok?
    ensures Inv(CreateTaskEntry(b, caller, input, id).value.0)
  {
    if !(exists e :: Replayed(b, caller, input, e)) {
      InsertedEntryIsNew(b, caller, input, id);
      InsertEntryKeeps(b, caller, input, id);
    }
  }

  /** What an entry that is not a repetition stores, and what it does to its task. */
  lemma {:induction false} EntryStored(b: Board, caller: Option<Caller>, input: EntryInput, id: Id)
    requires EntryInputOk(caller, input) && InsertEntry(b, caller, input, id).Ok?
    ensures var (b', reply) := InsertEntry(b, caller, input, id).value;
            && input.task in b.tasks && id !in b.entries
            && b'.entries == b.entries[id := Entry(input.task, input.kind.value, input.body, AuthorOf(caller), input.key, RunOf(caller))]
            && b'.tasks.Keys == b.tasks.Keys && (forall other :: other in b.tasks && other != input.task ==> b'.tasks[other] == b.tasks[other])
            && var was, now := b.tasks[input.task], b'.tasks[input.task];
            && now.content == was.content && now.place == was.place
            && now.flow.assignee == was.flow.assignee && now.flow.run == was.flow.run
            && reply == Reply(id, now.flow.status, now.flow.reason)
            && (input.kind == Parsed(Comment) ==> now == was)
            && (input.kind == Parsed(Output) ==> now.flow.status == NeedsReview && now.flow.reason == OutputReason)
            && |EntriesOf(b.entries, {input.task}).Keys| < MAX_TASK_ENTRIES
            && b'.usage == Usage(b.usage.tasks, b.usage.bytes + |input.body|)
            && b' == b.(entries := b'.entries, tasks := b'.tasks, usage := b'.usage)
  {
    ChargedMeans(b.limits, b.usage, 0, |input.body|);
  }

  lemma {:induction false} InsertEntryKeeps(b: Board, caller: Option<Caller>, input: EntryInput, id: Id)
    requires Inv(b) && EntryInputOk(caller, input) && InsertEntry(b, caller, input, id).Ok?
    requires forall e :: e in b.entries ==> !SameKey(b.entries[e], input.task, AuthorOf(caller), input.key)
    ensures Inv(InsertEntry(b, caller, input, id).value.0)
  {
    hide Measured, RowsOk, InsertEntry;
    var b' := InsertEntry(b, caller, input, id).value.0;
    assert input.kind == Parsed(input.kind.value) && (input.kind.value == Comment || input.kind.value == Output);
    EntryStored(b, caller, input, id);
    ApartFlow(b, input.task);
    UnmovedRearranged(b);
    assert FlowOk(b'.tasks[input.task].flow);
    RowWrittenKeeps(b, b.tasks, input.task, b'.tasks[input.task]);
    assert b'.tasks == b.tasks[input.task := b'.tasks[input.task]];
    AddedEntryKeeps(b.(tasks := b'.tasks), id, b'.entries[id], b'.usage);
    MeasuredSameContent(b.tasks, b'.tasks, b.entries);
    MeasuredAddEntry(b'.tasks, b.entries, id, b'.entries[id]);
  }

  lemma {:induction false} AddedEntryKeeps(b: Board, id: Id, entry: Entry, usage: Usage)
    requires RowsOk(b) && id !in b.entries && entry.task in b.tasks
    requires forall e :: e in b.entries ==> !SameKey(b.entries[e], entry.task, entry.author, entry.key)
    ensures RowsOk(b.(entries := b.entries[id := entry], usage := usage))
  {
    var entries' := b.entries[id := entry];
    forall e, f | e in entries' && f in entries' && SameKey(entries'[e], entries'[f].task, entries'[f].author, entries'[f].key)
      ensures e == f
    {
      if e == id && f != id {
        assert SameKey(b.entries[f], entry.task, entry.author, entry.key);
      }
    }
  }

  // ---------------------------------------------------------------- deletion

  /** Nesting is one level deep, so the direct subtasks are all a task takes along. */
  lemma {:induction false} TaskCascade(tasks: map<Id, Task>, id: Id)
    requires Nested(tasks) && id in tasks
    ensures Cascade(tasks, {id}) == {id} + ChildrenOf(tasks, id)
  {
    var one := {id} + ChildrenOf(tasks, id);
    assert {id} + (set other | other in tasks && tasks[other].place.parent.Some? && tasks[other].place.parent.value in {id}) == one;
    assert one + (set other | other in tasks && tasks[other].place.parent.Some? && tasks[other].place.parent.value in one) == one;
    assert Cascade(tasks, one) == one;
  }

  /** Subtasks are in their parent's list, so a list takes along nothing outside it. */
  lemma {:induction false} BucketCascade(tasks: map<Id, Task>, bucket: Id)
    requires Nested(tasks)
    ensures Cascade(tasks, InBucket(tasks, bucket)) == InBucket(tasks, bucket)
  {
    var ids := InBucket(tasks, bucket);
    assert ids + (set other | other in tasks && tasks[other].place.parent.Some? && tasks[other].place.parent.value in ids) == ids;
  }

  /** Erasing tasks together with all their subtasks keeps the rows consistent. */
  lemma {:induction false} EraseKeeps(b: Board, ids: set<Id>, usage: Usage)
    requires RowsOk(b) && ids <= b.tasks.Keys
    requires forall id :: id in b.tasks && b.tasks[id].place.parent.Some? && b.tasks[id].place.parent.value in ids ==> id in ids
    ensures RowsOk(Erase(b, ids, usage))
  {
    var b' := Erase(b, ids, usage);
    assert Nested(b'.tasks);
    assert OneEntryPerKey(b'.entries);
    assert EntriesAttached(b'.tasks, b'.entries);
  }

  lemma {:induction false} SubtreeClosed(b: Board, id: Id)
    requires RowsOk(b) && id in b.tasks
    ensures Nested(b.tasks)
    ensures var counted := {id} + ChildrenOf(b.tasks, id);
            forall other :: other in b.tasks && b.tasks[other].place.parent.Some? && b.tasks[other].place.parent.value in counted ==>
              other in counted
  {
  }

  lemma {:induction false} ListErased(b: Board, bucket: Id, usage: Usage)
    requires RowsOk(b)
    ensures Nested(b.tasks)
    ensures RowsOk(Erase(b, InBucket(b.tasks, bucket), usage).(buckets := b.buckets - {bucket}))
  {
    EraseKeeps(b, InBucket(b.tasks, bucket), usage);
  }

  lemma {:induction false} DeleteKeeps(b: Board, id: Id)
    requires Inv(b) && DeleteTask(b, id).Ok?
    ensures Inv(DeleteTask(b, id).value)
  {
    hide Cascade, Sum, Measured, RowsOk;
    var counted := {id} + ChildrenOf(b.tasks, id);
    SubtreeClosed(b, id);
    TaskCascade(b.tasks, id);
    assert RowsOk(Erase(b, counted, DeleteTask(b, id).value.usage)) by {
      EraseKeeps(b, counted, DeleteTask(b, id).value.usage);
    }
    MeasuredDelete(b.tasks, b.entries, counted);
    ChargedMeans(b.limits, b.usage, -|counted|, -Sum(StorageOf(b.tasks, b.entries, counted)));
  }

  lemma {:induction false} DeleteBucketKeeps(b: Board, bucket: Id)
    requires Inv(b) && DeleteBucket(b, bucket).Ok?
    ensures Inv(DeleteBucket(b, bucket).value)
  {
    hide Cascade, Sum, Measured, RowsOk;
    var doomed := InBucket(b.tasks, bucket);
    assert Nested(b.tasks) by {
      ListErased(b, bucket, b.usage);
    }
    BucketCascade(b.tasks, bucket);
    assert RowsOk(DeleteBucket(b, bucket).value) by {
      ListErased(b, bucket, DeleteBucket(b, bucket).value.usage);
    }
    MeasuredDelete(b.tasks, b.entries, doomed);
    ChargedMeans(b.limits, b.usage, -|doomed|, -Sum(StorageOf(b.tasks, b.entries, doomed)));
  }

  // ---------------------------------------------------------------- reordering

  lemma {:induction false} TouchedMeans(tasks: map<Id, Task>, parent: Id)
    requires parent in tasks
    ensures Distinct(Touched(tasks, parent)) && Elements(Touched(tasks, parent)) == TouchedLists(tasks, parent)
  {
    var lists := TouchedLists(tasks, parent);
    assert Enumeration.TotalOn(Ascends, lists);
    Enumeration.ListingAscends(Ascends, lists);
    Enumeration.AscendingDistinct(Ascends, Touched(tasks, parent));
  }

  lemma {:induction false} OrderSubtasksKeeps(b: Board, parent: Id, ids: seq<Id>)
    requires Inv(b) && ReorderSubtasks(b, parent, ids).Ok?
    ensures Inv(ReorderSubtasks(b, parent, ids).value)
  {
    hide ReorderedRows, Touched;
    var b' := ReorderSubtasks(b, parent, ids).value;
    TouchedMeans(b.tasks, parent);
    ReorderMeans(b.tasks, parent, ids, Touched(b.tasks, parent));
    PlacesKeep(b, b'.tasks, ChildrenOf(b.tasks, parent), b.tasks[parent].place.bucket);
  }

  /** Relocating subtasks that already share the list changes no home. */
  lemma {:induction false} PlacesKeep(b: Board, tasks': map<Id, Task>, moved: set<Id>, bucket: Id)
    requires Inv(b) && OnlyPlacesMoved(b.tasks, tasks', moved, bucket)
    requires forall id :: id in moved ==> id in b.tasks && b.tasks[id].place.bucket == bucket
    ensures Inv(b.(tasks := tasks'))
  {
    forall id | id in b.tasks
      ensures tasks'[id].content == b.tasks[id].content && tasks'[id].flow == b.tasks[id].flow
      ensures tasks'[id].place.parent == b.tasks[id].place.parent && tasks'[id].place.bucket == b.tasks[id].place.bucket
    {
      assert Renumber(tasks'[id], 0) == Renumber(if id in moved then Relocate(b.tasks[id], bucket) else b.tasks[id], 0);
    }
    assert SameHomes(b.tasks, tasks');
    SameHomesKeeps(b.tasks, tasks', b.buckets.Keys);
    RewriteKeeps(b, tasks');
    MeasuredSameContent(b.tasks, tasks', b.entries);
  }

  lemma {:induction false} NumberedFromShape(tasks: map<Id, Task>, ids: seq<Id>, from: nat)
    requires from <= |ids|
    ensures OnlyPlacesMoved(tasks, NumberedFrom(tasks, ids, from), {}, 0)
    decreases |ids| - from
  {
    if from == |ids| || ids[from] !in tasks {
    } else {
      NumberedFromShape(tasks[ids[from] := Renumber(tasks[ids[from]], from)], ids, from + 1);
    }
  }

  lemma {:induction false} OrderTasksKeeps(b: Board, bucket: Id, ids: seq<Id>)
    requires Inv(b) && ReorderTasks(b, bucket, ids).Ok?
    ensures Inv(ReorderTasks(b, bucket, ids).value)
  {
    NumberedFromShape(b.tasks, ids, 0);
    PlacesKeep(b, NumberedFrom(b.tasks, ids, 0), {}, 0);
  }

  // ---------------------------------------------------------------- what a step leaves alone

  lemma {:induction false} UpdateUntouched(b: Board, actor: Actor, id: Id, edit: TaskEdit)
    requires UpdateTask(b, actor, id, edit).Ok?
    ensures var b' := UpdateTask(b, actor, id, edit).value; b'.keys == b.keys && b'.entries == b.entries
  {
    hide ListChange, UpdatedFlow, EditedContent, Charged, RunError;
  }

  lemma {:induction false} MoveUntouched(b: Board, id: Id, bucket: Option<Id>, target: Target, status: Option<Parsed<Status>>)
    requires MoveTask(b, id, bucket, target, status).Ok?
    ensures var b' := MoveTask(b, id, bucket, target, status).value; b'.keys == b.keys && b'.entries == b.entries
  {
    hide MovedRows, OrderWithout, MovePosition, MovedFlow;
  }

  /** Only creations and deletions touch the keys, only new entries and deletions the entries. */
  lemma {:induction false} KeysUntouched(b: Board, step: Step)
    requires !step.Create? && !step.RemoveTask? && !step.RemoveBucket?
    ensures After(b, step).keys == b.keys
    ensures !step.AddEntry? ==> After(b, step).entries == b.entries
  {
    hide UpdateTask, MoveTask, NumberedFrom, ReorderedRows, Touched;
    if Apply(b, step).Ok? {
      match step
      case Update(actor, id, edit) => UpdateUntouched(b, actor, id, edit);
      case Move(id, bucket, target, status) => MoveUntouched(b, id, bucket, target, status);
      case _ =>
    }
  }

  // ---------------------------------------------------------------- every reachable account

  lemma {:induction false} StepKeeps(b: Board, step: Step)
    requires Inv(b)
    ensures Inv(After(b, step))
  {
    hide CreateTask, UpdateTask, MoveTask, ClaimTask, CreateTaskEntry, DeleteTask, DeleteBucket, ReorderSubtasks, ReorderTasks;
    if Apply(b, step).Ok? {
      match step
      case Create(draft, endpoint, inbox, id, now) => CreateKeeps(b, draft, endpoint, inbox, id, now);
      case Update(actor, id, edit) => UpdateKeeps(b, actor, id, edit);
      case Move(id, bucket, target, status) => MoveKeeps(b, id, bucket, target, status);
      case Claim(caller, id) => ClaimKeeps(b, caller, id);
      case AddEntry(caller, input, id) => EntryKeeps(b, caller, input, id);
      case RemoveTask(id) => DeleteKeeps(b, id);
      case RemoveBucket(bucket) => DeleteBucketKeeps(b, bucket);
      case OrderSubtasks(parent, ids) => OrderSubtasksKeeps(b, parent, ids);
      case OrderTasks(bucket, ids) => OrderTasksKeeps(b, bucket, ids);
      case AddBucket(id, inbox) =>
      case EditBucket(_, _, _) =>
      case SetAgents(agents) =>
      case SetLimits(limits) =>
    }
  }

  lemma {:induction false} FreshInv(b: Board)
    requires Fresh(b)
    ensures Inv(b)
  {
    SumEmpty(TaskSizes(b.tasks));
    SumEmpty(EntrySizes(b.entries));
  }

  /** Every account a run of the server reaches from a fresh one is consistent: workflow, nesting,
      entries and keys are sound, and the counters equal the recomputed sums. */
  lemma {:induction false} ReachableInv(boards: seq<Board>, steps: seq<Step>, i: nat)
    requires Runs(boards, steps) && Fresh(boards[0]) && i < |boards|
    ensures Inv(boards[i])
  {
    hide After, Inv, Fresh;
    if i == 0 {
      FreshInv(boards[0]);
    } else {
      ReachableInv(boards, steps, i - 1);
      StepKeeps(boards[i - 1], steps[i - 1]);
      assert boards[i - 1 + 1] == After(boards[i - 1], steps[i - 1]);
    }
  }
}
