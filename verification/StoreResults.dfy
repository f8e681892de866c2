/** Consequences of the store's invariant: the counters, the order moves leave behind, and which
    retries of a creation are accepted. */
module StoreResults {
  import opened Basics
  import opened Boards
  import opened Workflow
  import Enumeration
  import opened Ordering
  import opened Storage
  import opened SubtaskOrder
  import opened Store
  import opened StoreInvariants
  import opened ManagedRuns

  // ---------------------------------------------------------------- counters

  lemma {:induction false} TaskBytesCounted(tasks: map<Id, Task>, entries: map<Id, Entry>, id: Id)
    requires id in tasks
    ensures TaskBytes(tasks[id]) <= Measured(tasks, entries).bytes
  {
    hide Sum;
    var sizes := TaskSizes(tasks);
    SumTake(sizes, id);
    SumNonNegative(sizes - {id});
    SumNonNegative(EntrySizes(entries));
  }

  /** What a deletion takes off is no more than what is counted. */
  lemma {:induction false} DeletionCounted(b: Board, ids: set<Id>)
    requires Inv(b) && ids <= b.tasks.Keys
    ensures |ids| <= b.usage.tasks && 0 <= Sum(StorageOf(b.tasks, b.entries, ids)) <= b.usage.bytes
  {
    hide Sum, RowsOk;
    MeasuredDelete(b.tasks, b.entries, ids);
    MeasuredNonNegative(b.tasks - ids, b.entries - EntriesOf(b.entries, ids).Keys);
    forall id | id in StorageOf(b.tasks, b.entries, ids)
      ensures StorageOf(b.tasks, b.entries, ids)[id] >= 0
    {
      SumNonNegative(EntrySizes(EntriesOf(b.entries, {id})));
    }
    SumNonNegative(StorageOf(b.tasks, b.entries, ids));
  }

  /** The counters a step leaves, or the error with which it fails: never below zero, and whatever
      grew is within its limit. */
  ghost predicate CountersSound(b: Board, r: Result<Board, Error>) {
    && r != Err(NegativeCounters)
    && (r.Ok? && r.value.usage.tasks > b.usage.tasks ==> r.value.usage.tasks <= b.limits.tasks)
    && (r.Ok? && r.value.usage.bytes > b.usage.bytes ==> r.value.usage.bytes <= b.limits.bytes)
  }

  lemma {:induction false} UsageNonNegative(b: Board)
    requires Inv(b)
    ensures b.usage.tasks >= 0 && b.usage.bytes >= 0
  {
    hide Sum, RowsOk;
    MeasuredNonNegative(b.tasks, b.entries);
  }

  lemma {:induction false} CreateCounters(b: Board, step: Step)
    requires Inv(b) && step.Create?
    ensures CountersSound(b, Apply(b, step))
  {
    hide Inv, NextOrder, Replays, FingerprintOf;
    UsageNonNegative(b);
  }

  lemma {:induction false} UpdateCounters(b: Board, step: Step)
    requires Inv(b) && step.Update?
    ensures CountersSound(b, Apply(b, step))
  {
    hide RowsOk, ListChange, UpdatedFlow, Measured;
    UsageNonNegative(b);
    if step.task in b.tasks {
      TaskBytesCounted(b.tasks, b.entries, step.task);
      ListChangeError(b, step.task, step.edit);
      FlowError(b.tasks[step.task], step.edit, step.actor.Person? && step.actor.allowWorking, b.agents);
    }
  }

  lemma {:induction false} ListChangeError(b: Board, id: Id, edit: TaskEdit)
    requires id in b.tasks
    ensures ListChange(b, id, edit) != Err(NegativeCounters)
  {
    hide MovedRows;
  }

  lemma {:induction false} FlowError(task: Task, edit: TaskEdit, allowWorking: bool, agents: set<Id>)
    ensures forall kind :: UpdatedFlow(task.flow, kind, edit.flow, allowWorking, agents) != Err(NegativeCounters)
  {
  }

  lemma {:induction false} EntryCounters(b: Board, step: Step)
    requires Inv(b) && step.AddEntry?
    ensures CountersSound(b, Apply(b, step))
  {
    hide Inv;
    UsageNonNegative(b);
  }

  lemma {:induction false} DeleteCounters(b: Board, step: Step)
    requires Inv(b) && step.RemoveTask?
    ensures CountersSound(b, Apply(b, step))
  {
    hide Sum, Inv, Cascade, StorageOf;
    if step.task in b.tasks {
      DeletionCounted(b, {step.task} + ChildrenOf(b.tasks, step.task));
    }
  }

  lemma {:induction false} DeleteBucketCounters(b: Board, step: Step)
    requires Inv(b) && step.RemoveBucket?
    ensures CountersSound(b, Apply(b, step))
  {
    hide Sum, Measured, Cascade, StorageOf;
    assert Nested(b.tasks);
    BucketCascade(b.tasks, step.list);
    DeletionCounted(b, InBucket(b.tasks, step.list));
  }

  lemma {:induction false} MoveCounters(b: Board, step: Step)
    requires step.Move?
    ensures CountersSound(b, Apply(b, step))
  {
    hide MovedRows, OrderWithout;
  }

  /** In every reachable account, no step fails because a counter would become negative, and an
      accepted step that grows a counter ends within the limit. */
  lemma {:induction false} CountersStaySound(boards: seq<Board>, steps: seq<Step>, i: nat)
    requires Runs(boards, steps) && Fresh(boards[0]) && i < |steps|
    ensures boards[i].usage == Measured(boards[i].tasks, boards[i].entries)
    ensures CountersSound(boards[i], Apply(boards[i], steps[i]))
  {
    hide RowsOk, Measured, CreateTask, UpdateTask, MoveTask, CreateTaskEntry, DeleteTask, DeleteBucket, ReorderedRows;
    ReachableInv(boards, steps, i);
    var b, step := boards[i], steps[i];
    if step.Create? {
      CreateCounters(b, step);
    } else if step.Update? {
      UpdateCounters(b, step);
    } else if step.AddEntry? {
      EntryCounters(b, step);
    } else if step.RemoveTask? {
      DeleteCounters(b, step);
    } else if step.RemoveBucket? {
      DeleteBucketCounters(b, step);
    } else if step.Move? {
      MoveCounters(b, step);
    }
  }

  // ---------------------------------------------------------------- order

  /** The lists after a task and its subtasks went to `position` of `bucket`. */
  ghost predicate ListsMoved(tasks: map<Id, Task>, tasks': map<Id, Task>, id: Id, bucket: Id, position: nat)
    requires id in tasks
  {
    var source, moved := tasks[id].place.bucket, {id} + ChildrenOf(tasks, id);
    var rest := Without(Ordered(tasks, InBucket(tasks, bucket)), moved);
    && position <= |rest|
    && Numbered(tasks', bucket, Inserted(rest, Group(tasks, id), position))
    && (source != bucket ==> Numbered(tasks', source, Without(Ordered(tasks, InBucket(tasks, source)), moved)))
    && (forall other :: other in tasks && other != id ==>
          other in tasks' && tasks'[other].content == tasks[other].content && tasks'[other].flow == tasks[other].flow)
    && (forall other :: other in tasks && tasks[other].place.bucket != source && tasks[other].place.bucket != bucket ==>
          other in tasks' && tasks'[other] == tasks[other])
  }

  lemma {:induction false} NumberedSamePlaces(tasks: map<Id, Task>, tasks': map<Id, Task>, bucket: Id, order: seq<Id>)
    requires Numbered(tasks, bucket, order)
    requires tasks'.Keys == tasks.Keys && forall id :: id in tasks ==> tasks'[id].place == tasks[id].place
    ensures Numbered(tasks', bucket, order)
  {
    assert InBucket(tasks', bucket) == InBucket(tasks, bucket);
  }

  /** The order a move leaves does not depend on what else the transaction writes to the moved row. */
  lemma {:induction false} RowWrittenLists(tasks: map<Id, Task>, rows: map<Id, Task>, id: Id, bucket: Id, position: nat, task: Task)
    requires id in tasks && MoveOk(tasks, rows, id, bucket, position) && id in rows && task.place == rows[id].place
    ensures ListsMoved(tasks, rows[id := task], id, bucket, position)
  {
    hide Numbered, Ordered, Inserted, Without;
    MovedRowsShape(tasks, rows, id, bucket, position);
    var source, moved := tasks[id].place.bucket, {id} + ChildrenOf(tasks, id);
    var rest := Without(Ordered(tasks, InBucket(tasks, bucket)), moved);
    NumberedSamePlaces(rows, rows[id := task], bucket, Inserted(rest, Group(tasks, id), position));
    if source != bucket {
      NumberedSamePlaces(rows, rows[id := task], source, Without(Ordered(tasks, InBucket(tasks, source)), moved));
    }
  }

  /** Every accepted move: where the request asked, with the whole group, every list dense. */
  lemma {:induction false} MoveTaskOrders(b: Board, id: Id, bucket: Option<Id>, target: Target, status: Option<Parsed<Status>>)
    requires Inv(b) && MoveTask(b, id, bucket, target, status).Ok?
    ensures id in b.tasks && bucket.Some? && TargetOk(target) && MovePosition(b.tasks, id, bucket.value, target).Ok?
    ensures ListsMoved(b.tasks, MoveTask(b, id, bucket, target, status).value.tasks, id, bucket.value,
                       MovePosition(b.tasks, id, bucket.value, target).value)
  {
    hide MoveTask, MovePosition, MovedRows, OrderWithout, MoveOk, ListsMoved;
    var b' := MoveTask(b, id, bucket, target, status).value;
    MoveShape(b, id, bucket, target, status);
    var position := MovePosition(b.tasks, id, bucket.value, target).value;
    var rows := MovedRows(b.tasks, id, bucket.value, position);
    MovedRowsShape(b.tasks, rows, id, bucket.value, position);
    RowWrittenLists(b.tasks, rows, id, bucket.value, position, b'.tasks[id]);
  }

  /** Every accepted update that names another list puts the task and its subtasks at its top. */
  lemma {:induction false} UpdateTaskOrders(b: Board, actor: Actor, id: Id, edit: TaskEdit)
    requires Inv(b) && UpdateTask(b, actor, id, edit).Ok?
    ensures id in b.tasks
    ensures edit.bucket.Some? && edit.bucket.value != b.tasks[id].place.bucket ==>
      ListsMoved(b.tasks, UpdateTask(b, actor, id, edit).value.tasks, id, edit.bucket.value, 0)
  {
    hide UpdateTask, ListChange, MoveOk, ListsMoved;
    UpdateShape(b, actor, id, edit);
    ListChangeMeans(b, id, edit);
    if edit.bucket.Some? && edit.bucket.value != b.tasks[id].place.bucket {
      RowWrittenLists(b.tasks, ListChange(b, id, edit).value, id, edit.bucket.value, 0, UpdateTask(b, actor, id, edit).value.tasks[id]);
    }
  }

  /** A new task is the last of its list. */
  lemma {:induction false} CreatedLast(b: Board, p: Prepared, bucket: Id, id: Id, now: int)
    requires InsertTask(b, p, bucket, id, now).Ok?
    ensures var b' := InsertTask(b, p, bucket, id, now).value.0;
            && id in b'.tasks
            && var home := b'.tasks[id].place.bucket;
               Ordered(b'.tasks, InBucket(b'.tasks, home)) == Ordered(b.tasks, InBucket(b.tasks, home)) + [id]
  {
    hide InsertTask, NextOrder, Ordered;
    var b' := InsertTask(b, p, bucket, id, now).value.0;
    InsertShape(b, p, bucket, id, now);
    assert b'.tasks[id].place.sortOrder == NextOrder(b.tasks, b'.tasks[id].place.bucket) by {
      InsertedNumber(b, p, bucket, id, now);
    }
    AppendedLast(b.tasks, id, b'.tasks[id]);
  }

  lemma {:induction false} InsertedNumber(b: Board, p: Prepared, bucket: Id, id: Id, now: int)
    requires InsertTask(b, p, bucket, id, now).Ok?
    ensures var b' := InsertTask(b, p, bucket, id, now).value.0;
            id in b'.tasks && b'.tasks[id].place.sortOrder == NextOrder(b.tasks, b'.tasks[id].place.bucket)
  {
    hide NextOrder, Charged;
  }

  /** The number given to a new task exceeds every number in the list. */
  lemma {:induction false} NextOrderExceeds(tasks: map<Id, Task>, bucket: Id, other: Id)
    requires other in InBucket(tasks, bucket)
    ensures tasks[other].place.sortOrder < NextOrder(tasks, bucket)
  {
    var ids := InBucket(tasks, bucket);
    var order := Ordered(tasks, ids);
    OrderedElements(tasks, ids);
    OrderTotal(tasks, ids);
    Enumeration.ListingAscends(Less(tasks), ids);
    var i :| 0 <= i < |order| && order[i] == other;
    if i < |order| - 1 {
      assert Less(tasks)(order[i], order[|order| - 1]);
    }
  }

  lemma {:induction false} AppendedLast(tasks: map<Id, Task>, id: Id, task: Task)
    requires id !in tasks && task.place.sortOrder == NextOrder(tasks, task.place.bucket)
    ensures var bucket := task.place.bucket;
            Ordered(tasks[id := task], InBucket(tasks[id := task], bucket)) == Ordered(tasks, InBucket(tasks, bucket)) + [id]
  {
    hide NextOrder;
    var tasks', bucket := tasks[id := task], task.place.bucket;
    var ids := InBucket(tasks, bucket);
    var order := Ordered(tasks, ids);
    assert InBucket(tasks', bucket) == ids + {id};
    OrderedElements(tasks, ids);
    OrderTotal(tasks, ids);
    OrderTotal(tasks', ids + {id});
    Enumeration.ListingAscends(Less(tasks), ids);
    forall i, j | 0 <= i < j < |order| + 1
      ensures Less(tasks')((order + [id])[i], (order + [id])[j])
    {
      assert order[i] in order;
      if j < |order| {
        assert order[j] in order && Less(tasks)(order[i], order[j]);
      } else {
        NextOrderExceeds(tasks, bucket, order[i]);
      }
    }
    assert Elements(order + [id]) == ids + {id};
    Enumeration.ListingUnique(Less(tasks'), ids + {id}, order + [id]);
  }

  /** A plain reorder gives each task it names its last position in the order, and changes nothing else. */
  lemma {:induction false} ReorderTasksNumbers(tasks: map<Id, Task>, ids: seq<Id>, from: nat, id: Id, last: nat)
    requires from <= |ids| && (forall i :: 0 <= i < |ids| ==> ids[i] in tasks) && id in tasks
    ensures NumberedFrom(tasks, ids, from).Keys == tasks.Keys
    ensures id !in ids[from..] ==> NumberedFrom(tasks, ids, from)[id] == tasks[id]
    ensures from <= last < |ids| && ids[last] == id && id !in ids[last + 1..] ==>
      NumberedFrom(tasks, ids, from)[id] == Renumber(tasks[id], last)
    decreases |ids| - from
  {
    if from == |ids| {
    } else {
      var written := tasks[ids[from] := Renumber(tasks[ids[from]], from)];
      ReorderTasksNumbers(written, ids, from + 1, id, last);
      assert ids[from..] == [ids[from]] + ids[from + 1..];
    }
  }

  // ---------------------------------------------------------------- edits, entries and deletions

  datatype Field = TitleField | DescriptionField | DateField | PriorityField
  datatype FieldValue = TextValue(text: Text) | PriorityValue(priority: Priority)

  function FieldOf(content: Content, field: Field): FieldValue {
    match field
    case TitleField => TextValue(content.title)
    case DescriptionField => TextValue(content.description)
    case DateField => TextValue(content.date)
    case PriorityField => PriorityValue(content.priority)
  }

  /** What an edit names for a field. */
  function Named(edit: TaskEdit, field: Field): Option<FieldValue> {
    match field
    case TitleField => if edit.title.Some? then Some(TextValue(edit.title.value)) else None
    case DescriptionField => if edit.description.Some? then Some(TextValue(edit.description.value)) else None
    case DateField => if edit.date.Some? && edit.date.value.Parsed? then Some(TextValue(edit.date.value.value)) else None
    case PriorityField =>
      if edit.priority.Some? && edit.priority.value.Parsed? then Some(PriorityValue(edit.priority.value.value)) else None
  }

  /** What a step writes to a field of a task: only an accepted update of that task writes anything. */
  ghost function Written(b: Board, step: Step, id: Id, field: Field): Option<FieldValue> {
    if step.Update? && step.task == id && Apply(b, step).Ok? then Named(step.edit, field) else None
  }

  lemma {:induction false} StepField(b: Board, step: Step, id: Id, field: Field)
    requires Inv(b) && id in b.tasks && id in After(b, step).tasks
    ensures FieldOf(After(b, step).tasks[id].content, field)
         == if Written(b, step, id, field).Some? then Written(b, step, id, field).value else FieldOf(b.tasks[id].content, field)
  {
    hide Apply, Inv, FlowStep;
    if Apply(b, step).Ok? {
      StepFlow(b, step, id);
    }
  }

  /** In any run of the server, while a task is stored each of its texts and its priority is what the
      last accepted update that named it said: no move, claim, entry, reorder or rejected request
      touches them. */
  lemma {:induction false} LastWriteHolds(boards: seq<Board>, steps: seq<Step>, id: Id, field: Field, write: nat, until: nat)
    requires Runs(boards, steps) && Fresh(boards[0]) && write < until <= |steps|
    requires forall k :: write <= k <= until ==> id in boards[k].tasks
    requires Written(boards[write], steps[write], id, field).Some?
    requires forall k :: write < k < until ==> Written(boards[k], steps[k], id, field).None?
    ensures FieldOf(boards[until].tasks[id].content, field) == Written(boards[write], steps[write], id, field).value
    decreases until - write
  {
    hide Inv, After, Fresh, Written, FieldOf;
    var b, step := boards[until - 1], steps[until - 1];
    assert boards[until - 1 + 1] == After(b, step);
    ReachableInv(boards, steps, until - 1);
    StepField(b, step, id, field);
    if until - 1 == write {
    } else {
      LastWriteHolds(boards, steps, id, field, write, until - 1);
      assert Written(boards[until - 1], steps[until - 1], id, field).None?;
    }
  }

  /** An agent's accepted update was on a task assigned to it, under the run that owns the task or under
      none, and left the place, the assignee and the run as they were. */
  lemma {:induction false} AgentUpdateScope(b: Board, caller: Caller, id: Id, edit: TaskEdit)
    requires RowsOk(b) && UpdateTask(b, AgentActor(caller), id, edit).Ok?
    ensures id in b.tasks && id in UpdateTask(b, AgentActor(caller), id, edit).value.tasks
    ensures var was, now := b.tasks[id], UpdateTask(b, AgentActor(caller), id, edit).value.tasks[id];
            && was.flow.assignee == Some(caller.agent) && was.flow.run == caller.run
            && now.place == was.place && now.flow.assignee == was.flow.assignee
            && (was.flow.run.Some? ==> now.flow == was.flow)
  {
    hide UpdatedFlow, Charged, EditedContent;
    var content := EditedContent(b.tasks[id].content, edit).value;
    UpdateDecides(b.tasks[id].flow, content.kind, edit.flow, false, b.agents);
    if edit.flow == FlowEdit(None, None, None) {
      PlainEditKeepsFlow(b.tasks[id].flow, content.kind, edit.flow, false, b.agents);
    }
  }

  /** A deletion takes exactly the task, its subtasks and their entries. */
  lemma {:induction false} DeletedExactly(b: Board, id: Id)
    requires Inv(b) && DeleteTask(b, id).Ok?
    ensures var b', gone := DeleteTask(b, id).value, {id} + ChildrenOf(b.tasks, id);
            && b'.tasks == b.tasks - gone
            && (forall e :: e in b'.entries <==> e in b.entries && b.entries[e].task !in gone)
            && (forall e :: e in b'.entries ==> b'.entries[e] == b.entries[e])
            && b'.keys.Keys == b.keys.Keys && b'.buckets == b.buckets
  {
    hide Cascade, Sum, Measured, StorageOf, Charged;
    TaskCascade(b.tasks, id);
  }

  /** A list deletion takes exactly the list, its tasks and their entries. */
  lemma {:induction false} ListDeletedExactly(b: Board, bucket: Id)
    requires Inv(b) && DeleteBucket(b, bucket).Ok?
    ensures var b', gone := DeleteBucket(b, bucket).value, InBucket(b.tasks, bucket);
            && b'.buckets == b.buckets - {bucket} && b'.tasks == b.tasks - gone
            && (forall e :: e in b'.entries <==> e in b.entries && b.entries[e].task !in gone)
            && (forall e :: e in b'.entries ==> b'.entries[e] == b.entries[e])
            && b'.keys.Keys == b.keys.Keys
  {
    hide Cascade, Sum, Measured, StorageOf, Charged;
    BucketCascade(b.tasks, bucket);
  }

  ghost predicate SoleInbox(buckets: map<Id, bool>, inbox: Id) {
    inbox in buckets && buckets[inbox] && forall other :: other in buckets && buckets[other] ==> other == inbox
  }

  /** Exactly one list is the inbox. */
  ghost predicate OneInbox(b: Board) {
    exists inbox :: SoleInbox(b.buckets, inbox)
  }

  /** The inbox is never lost and never doubled. */
  lemma {:induction false} InboxSurvives(b: Board, step: Step)
    requires OneInbox(b)
    ensures OneInbox(After(b, step))
  {
    hide After, SoleInbox;
    var inbox :| SoleInbox(b.buckets, inbox);
    if step.RemoveBucket? {
      ListDeletion(b, step, inbox);
    } else if step.AddBucket? {
      NewList(b, step, inbox);
    } else if step.EditBucket? {
      EditedList(b, step, inbox);
    } else {
      ListsUntouched(b, step);
    }
  }

  lemma {:induction false} ListDeletion(b: Board, step: Step, inbox: Id)
    requires step.RemoveBucket? && SoleInbox(b.buckets, inbox)
    ensures SoleInbox(After(b, step).buckets, inbox)
  {
    hide Cascade, Sum, StorageOf, Charged;
  }

  lemma {:induction false} NewList(b: Board, step: Step, inbox: Id)
    requires step.AddBucket? && SoleInbox(b.buckets, inbox)
    ensures SoleInbox(After(b, step).buckets, if step.isInbox && step.list !in b.buckets then step.list else inbox)
  {
  }

  lemma {:induction false} EditedList(b: Board, step: Step, inbox: Id)
    requires step.EditBucket? && SoleInbox(b.buckets, inbox)
    ensures SoleInbox(After(b, step).buckets, if step.valid && step.list in b.buckets && step.marker == Some(true) then step.list else inbox)
  {
  }

  lemma {:induction false} ListsUntouched(b: Board, step: Step)
    requires !step.RemoveBucket? && !step.AddBucket? && !step.EditBucket?
    ensures After(b, step).buckets == b.buckets
  {
    hide NextOrder, Replays, FingerprintOf, ListChange, UpdatedFlow, EditedContent, MovedRows, OrderWithout, MovePosition, NumberedFrom, Touched, ReorderedRows, Cascade, Sum, StorageOf, Charged;
  }

  // ---------------------------------------------------------------- retries of a creation

  /** The two requests describe the same task. */
  predicate SameRequest(p: Prepared, first: Prepared) {
    && p.title == first.title && p.description == first.description && p.date == first.date
    && p.kind == first.kind && p.assignee == first.assignee && p.parent == first.parent
  }

  predicate SameLabels(p: Prepared, first: Prepared) {
    p.status == first.status && p.priority == first.priority
  }

  /** The retry came through the same endpoint, or through the parent's after a list's. */
  predicate SameRoute(p: Prepared, first: Prepared, buckets: set<Id>) {
    && p.overrideLimit == first.overrideLimit
    && (p.endpoint == first.endpoint
        || (p.endpoint.ParentEndpoint? && p.parent.Some? && first.endpoint.ListEndpoint? && first.endpoint.id in buckets))
  }

  /** A retry under a used key is accepted exactly if it describes the same task, agrees on status and
      priority when it names either, and came the same way; a subtask whose task still exists may
      come any way if status and priority agree. */
  lemma {:induction false} ReplayedExactly(p: Prepared, first: Prepared, task: Option<Id>, buckets: set<Id>)
    requires p.endpoint.ParentEndpoint? ==> p.parent.Some?
    ensures Replays(p, KeyRecord(FingerprintOf(first), DataOf(first), task), buckets)
       <==> && SameRequest(p, first)
            && (p.status.Some? || p.priority != NoPriority ==> SameLabels(p, first))
            && (SameRoute(p, first, buckets) || (p.parent.Some? && task.Some? && SameLabels(p, first)))
  {
  }

  /** The request as the server prepares it. */
  function PreparedOf(draft: Draft, endpoint: Endpoint): Result<Prepared, Error> {
    PrepareTaskCreate(if endpoint.ParentEndpoint? then draft.(parent := Some(endpoint.id)) else draft, endpoint)
  }

  /** What one step may do to the record of a used key: nothing but forget a deleted task. */
  ghost predicate KeyKept(b: Board, b': Board, key: Text)
    requires key in b.keys
  {
    && key in b'.keys
    && b'.keys[key].fingerprint == b.keys[key].fingerprint && b'.keys[key].data == b.keys[key].data
    && (b'.keys[key].task == b.keys[key].task || b'.keys[key].task == None)
  }

  lemma {:induction false} CreateKeepsKey(b: Board, step: Step, key: Text)
    requires key in b.keys && step.Create?
    ensures KeyKept(b, After(b, step), key)
  {
    hide NextOrder, Replays, FingerprintOf, Charged;
  }

  lemma {:induction false} DeletionKeepsKey(b: Board, step: Step, key: Text)
    requires key in b.keys && (step.RemoveTask? || step.RemoveBucket?)
    ensures KeyKept(b, After(b, step), key)
  {
    hide Cascade, Sum, StorageOf, Charged;
  }

  lemma {:induction false} OtherStepKeepsKey(b: Board, step: Step, key: Text)
    requires key in b.keys && !step.Create? && !step.RemoveTask? && !step.RemoveBucket?
    ensures KeyKept(b, After(b, step), key)
  {
    hide After;
    KeysUntouched(b, step);
  }

  lemma {:induction false} StepKeepsKey(b: Board, step: Step, key: Text)
    requires key in b.keys
    ensures KeyKept(b, After(b, step), key)
  {
    hide After, KeyKept;
    if step.Create? {
      CreateKeepsKey(b, step, key);
    } else if step.RemoveTask? || step.RemoveBucket? {
      DeletionKeepsKey(b, step, key);
    } else {
      OtherStepKeepsKey(b, step, key);
    }
  }

  lemma {:induction false} KeyLasts(boards: seq<Board>, steps: seq<Step>, key: Text, from: nat, until: nat)
    requires Runs(boards, steps) && from <= until <= |steps| && key in boards[from].keys
    ensures KeyKept(boards[from], boards[until], key)
    decreases until - from
  {
    hide After;
    if from == until {
    } else {
      assert boards[from + 1] == After(boards[from], steps[from]);
      StepKeepsKey(boards[from], steps[from], key);
      KeyLasts(boards, steps, key, from + 1, until);
    }
  }

  lemma {:induction false} FirstRecord(b: Board, draft: Draft, endpoint: Endpoint, inbox: Id, id: Id, now: int, key: Text)
    requires draft.key == Some(key) && key !in b.keys && CreateTask(b, draft, endpoint, inbox, id, now).Ok?
    ensures PreparedOf(draft, endpoint).Ok?
    ensures var (b', task) := CreateTask(b, draft, endpoint, inbox, id, now).value;
            var p := PreparedOf(draft, endpoint).value;
            key in b'.keys && b'.keys[key] == KeyRecord(FingerprintOf(p), DataOf(p), Some(task))
  {
    hide NextOrder;
  }

  lemma {:induction false} RetryRecord(b: Board, draft: Draft, endpoint: Endpoint, inbox: Id, id: Id, now: int, key: Text)
    requires draft.key == Some(key) && key in b.keys && CreateTask(b, draft, endpoint, inbox, id, now).Ok?
    ensures PreparedOf(draft, endpoint).Ok?
    ensures var (b', task) := CreateTask(b, draft, endpoint, inbox, id, now).value;
            b' == b && b.keys[key].task == Some(task) && Replays(PreparedOf(draft, endpoint).value, b.keys[key], b.buckets.Keys)
    ensures PreparedOf(draft, endpoint).value.endpoint.ParentEndpoint? ==> PreparedOf(draft, endpoint).value.parent.Some?
  {
    hide NextOrder, Replays, InsertTask;
  }

  /** Whatever happens in between, an accepted retry stores nothing, returns the task of the first
      request, and described the same task: it agreed on title, description, date, kind, assignee and
      parent, and on status and priority when it named either. */
  lemma {:induction false} RetryIsAnswered(boards: seq<Board>, steps: seq<Step>, i: nat, j: nat, key: Text)
    requires Runs(boards, steps) && i < j < |steps| && steps[i].Create? && steps[j].Create?
    requires steps[i].draft.key == Some(key) && steps[j].draft.key == Some(key) && key !in boards[i].keys
    requires Apply(boards[i], steps[i]).Ok? && Apply(boards[j], steps[j]).Ok?
    ensures boards[j + 1] == boards[j]
    ensures CreateTask(boards[j], steps[j].draft, steps[j].endpoint, steps[j].inbox, steps[j].task, steps[j].now).value.1
         == CreateTask(boards[i], steps[i].draft, steps[i].endpoint, steps[i].inbox, steps[i].task, steps[i].now).value.1
    ensures PreparedOf(steps[i].draft, steps[i].endpoint).Ok? && PreparedOf(steps[j].draft, steps[j].endpoint).Ok?
    ensures var first, p := PreparedOf(steps[i].draft, steps[i].endpoint).value, PreparedOf(steps[j].draft, steps[j].endpoint).value;
            SameRequest(p, first) && (p.status.Some? || p.priority != NoPriority ==> SameLabels(p, first))
  {
    hide CreateTask, FingerprintOf, Replays, PreparedOf;
    var one, two := steps[i], steps[j];
    FirstRecord(boards[i], one.draft, one.endpoint, one.inbox, one.task, one.now, key);
    assert boards[i + 1] == CreateTask(boards[i], one.draft, one.endpoint, one.inbox, one.task, one.now).value.0 by {
      assert boards[i + 1] == After(boards[i], one);
    }
    KeyLasts(boards, steps, key, i + 1, j);
    RetryRecord(boards[j], two.draft, two.endpoint, two.inbox, two.task, two.now, key);
    assert boards[j + 1] == boards[j] by {
      assert boards[j + 1] == After(boards[j], two);
    }
    var first, p := PreparedOf(one.draft, one.endpoint).value, PreparedOf(two.draft, two.endpoint).value;
    ReplayedExactly(p, first, boards[j].keys[key].task, boards[j].buckets.Keys);
  }
}
