/** Which requests the store accepts, and what an accepted one leaves in the row it names. `Store` computes
    both by the steps of server/internal/boards/store.go; here they are read off the request and
    the account. */
module Decisions {
  import opened Basics
  import opened Boards
  import opened Workflow
  import opened Ordering
  import opened Storage
  import opened SubtaskOrder
  import opened Store
  import opened StoreInvariants
  import opened StoreResults
  import opened ManagedRuns

  // ---------------------------------------------------------------- update

  /** The workflow an update leaves: the assignee it names, the status it asks for as far as the assignment
      allows, and a run and a review reason only if nothing took them away. */
  ghost predicate FlowUpdated(before: Flow, edit: FlowEdit, after: Flow) {
    var asked, given := AskedStatus(before, edit), after.assignee.Some? && after.assignee != before.assignee;
    && after.assignee == (if edit.assignee.Some? then edit.assignee.value else before.assignee)
    && asked.Parsed?
    && (asked.value == Done ==> after.status == Done)
    && (asked.value == Working || asked.value == NeedsReview ==> after.status == if given then Queued else asked.value)
    && (asked.value == New ==> after.status == if after.assignee.Some? then Queued else New)
    && (asked.value == Queued ==> after.status == if after.assignee.None? && before.assignee.Some? then New else Queued)
    && after.run == (if after.status == Queued || after.assignee != before.assignee then None else before.run)
    && after.reason == (if after.status == NeedsReview && before.status == NeedsReview then before.reason else NoReason)
  }

  /** What an accepted update stores: the workflow above, and unless it names another list, no place but the
      number it names and no other row. */
  lemma {:induction false} UpdateStored(b: Board, actor: Actor, id: Id, edit: TaskEdit)
    requires Inv(b) && UpdateTask(b, actor, id, edit).Ok?
    ensures var b' := UpdateTask(b, actor, id, edit).value;
      && id in b.tasks && b'.tasks.Keys == b.tasks.Keys
      && FlowUpdated(b.tasks[id].flow, edit.flow, b'.tasks[id].flow)
      && b' == b.(tasks := b'.tasks, usage := b'.usage)
      && (edit.bucket.None? || edit.bucket.value == b.tasks[id].place.bucket ==>
            && (forall other :: other in b.tasks && other != id ==> b'.tasks[other] == b.tasks[other])
            && b'.tasks[id].place == b.tasks[id].place.(sortOrder := if edit.sortOrder.Some? then edit.sortOrder.value else b.tasks[id].place.sortOrder))
  {
    hide UpdatedFlow, EditedContent, RowsOk, Measured, MoveOk, Charged, FlowUpdated, ListChange;
    var task := b.tasks[id];
    var content := EditedContent(task.content, edit).value;
    ListChangeMeans(b, id, edit);
    ApartFlow(b, id);
    FlowUpdates(task.flow, content.kind, edit.flow, actor.Person? && actor.allowWorking, b.agents);
  }

  lemma {:induction false} FlowUpdates(flow: Flow, kind: Kind, edit: FlowEdit, allowWorking: bool, agents: set<Id>)
    requires FlowOk(flow) && UpdatedFlow(flow, kind, edit, allowWorking, agents).Ok?
    ensures FlowUpdated(flow, edit, UpdatedFlow(flow, kind, edit, allowWorking, agents).value)
  {
    hide UpdatedFlow;
    UpdateDecides(flow, kind, edit, allowWorking, agents);
    UpdateSettles(flow, kind, edit, allowWorking, agents);
  }

  /** When the workflow part of an update is accepted: a named status is one, working only where the endpoint
      allows it, and of an action; a named assignee is active; and a task that stays with an archived
      agent is not put to be worked on. */
  ghost predicate FlowAllowed(flow: Flow, kind: Kind, edit: FlowEdit, allowWorking: bool, agents: set<Id>) {
    && (edit.status.Some? ==> edit.status.value.Parsed? && (edit.status.value.value == Working ==> allowWorking) && kind == Action)
    && (kind != Action ==> AskedStatus(flow, edit) == Parsed(flow.status))
    && (edit.assignee.Some? && edit.assignee.value.Some? ==> edit.assignee.value.value in agents)
    && (edit.assignee.None? && flow.assignee.Some? && flow.assignee.value !in agents ==>
          AskedStatus(flow, edit) in {Parsed(NeedsReview), Parsed(Done)})
  }

  lemma {:induction false} FlowAccepted(flow: Flow, kind: Kind, edit: FlowEdit, allowWorking: bool, agents: set<Id>)
    ensures UpdatedFlow(flow, kind, edit, allowWorking, agents).Ok? <==> FlowAllowed(flow, kind, edit, allowWorking, agents)
  {
  }

  /** Exactly which updates are accepted. An agent's credential reaches only the tasks of the agent under the run
      that owns them, and never place, assignee or the status of an owned task; a list change is one of a
      top-level task to a list of the account without a number; and only growth can meet the limit. */
  lemma {:induction false} UpdateAccepted(b: Board, actor: Actor, id: Id, edit: TaskEdit)
    requires Inv(b)
    ensures UpdateTask(b, actor, id, edit).Ok? <==>
      && id in b.tasks
      && var task := b.tasks[id];
      && (actor.AgentActor? ==>
            && edit.bucket.None? && edit.sortOrder.None? && edit.flow.assignee.None?
            && task.flow.assignee == Some(actor.caller.agent) && task.flow.run == actor.caller.run
            && (task.flow.run.Some? ==> edit.flow.status.None? && edit.flow.done.None?))
      && edit.date != Some(Malformed) && edit.priority != Some(Malformed) && (edit.kind.Some? ==> edit.kind.value == Parsed(Action))
      && (if edit.title.Some? then edit.title.value else task.content.title) != []
      && (edit.bucket.Some? && edit.bucket.value != task.place.bucket ==>
            edit.sortOrder.None? && task.place.parent.None? && edit.bucket.value in b.buckets)
      && FlowAllowed(task.flow, if edit.kind.Some? then Action else task.content.kind, edit.flow, actor == Person(true), b.agents)
      && var grown := (if edit.title.Some? then |edit.title.value| - |task.content.title| else 0)
                      + (if edit.description.Some? then |edit.description.value| - |task.content.description| else 0);
         grown > 0 ==> b.usage.bytes + grown <= b.limits.bytes
  {
    hide UpdatedFlow, FlowAllowed, Measured, MovedRows, RowsOk, Charged;
    if id in b.tasks {
      var task := b.tasks[id];
      FlowAccepted(task.flow, if edit.kind.Some? then Action else task.content.kind, edit.flow, actor == Person(true), b.agents);
      ListChangeAccepted(b, id, edit);
      if EditedContent(task.content, edit).Ok? {
        var content := EditedContent(task.content, edit).value;
        EditCharged(b, id, |content.title| + |content.description|);
      }
    }
  }

  lemma {:induction false} ListChangeAccepted(b: Board, id: Id, edit: TaskEdit)
    requires RowsOk(b) && id in b.tasks
    ensures ListChange(b, id, edit).Ok? <==>
      (edit.bucket.Some? && edit.bucket.value != b.tasks[id].place.bucket ==>
         edit.sortOrder.None? && b.tasks[id].place.parent.None? && edit.bucket.value in b.buckets)
  {
    hide MovedRows;
  }

  /** A row that shrinks to any size is always paid for. */
  lemma {:induction false} EditCharged(b: Board, id: Id, bytes: nat)
    requires Inv(b) && id in b.tasks
    ensures var grown := bytes - TaskBytes(b.tasks[id]);
      Charged(b.limits, b.usage, 0, grown).Ok? <==> (grown > 0 ==> b.usage.bytes + grown <= b.limits.bytes)
  {
    hide RowsOk, Measured;
    UsageNonNegative(b);
    TaskBytesCounted(b.tasks, b.entries, id);
  }

  /** Why an agent's update is refused: for naming a place or an assignee, for speaking under another run than the one
      that owns the task, or for naming the status of a task its run owns, each exactly. */
  lemma {:induction false} UpdateRefusals(b: Board, actor: Actor, id: Id, edit: TaskEdit)
    ensures var r := UpdateTask(b, actor, id, edit);
      var outside := actor.AgentActor? && (edit.bucket.Some? || edit.sortOrder.Some? || edit.flow.assignee.Some?);
      var own := actor.AgentActor? && !outside && id in b.tasks && b.tasks[id].flow.assignee == Some(actor.caller.agent);
      && (r == Err(AgentTaskScope) <==> outside)
      && (r == Err(ManagedRunMismatch) <==> own && b.tasks[id].flow.run != actor.caller.run)
      && (r == Err(ManagedRunStatusLocked) <==>
            own && b.tasks[id].flow.run == actor.caller.run && actor.caller.run.Some? && (edit.flow.status.Some? || edit.flow.done.Some?))
      && (!outside && (id !in b.tasks || (actor.AgentActor? && !own)) ==> r == Err(NotFound))
  {
    hide ListChange, UpdatedFlow, EditedContent, Charged;
    if id in b.tasks {
      PlainErrors(b, id, edit, actor.Person? && actor.allowWorking);
    }
  }

  /** The parts of an update that do not look at who asks refuse it only as invalid, not found or over a limit. */
  lemma {:induction false} PlainErrors(b: Board, id: Id, edit: TaskEdit, allowWorking: bool)
    requires id in b.tasks
    ensures var content, rows := EditedContent(b.tasks[id].content, edit), ListChange(b, id, edit);
      (content.Err? ==> content.error == InvalidData) && (rows.Err? ==> rows.error == InvalidData || rows.error == NotFound)
    ensures forall kind :: var flow := UpdatedFlow(b.tasks[id].flow, kind, edit.flow, allowWorking, b.agents); flow.Err? ==> flow.error == InvalidData
    ensures forall grown :: var usage := Charged(b.limits, b.usage, 0, grown);
      usage.Err? ==> usage.error == StoredContentLimit || usage.error == NegativeCounters
  {
    hide MovedRows;
  }

  // ---------------------------------------------------------------- move

  /** The workflow a move leaves. */
  ghost predicate FlowMoved(before: Flow, status: Option<Parsed<Status>>, after: Flow) {
    if status.None? then after == before
    else
      && status.value.Parsed? && after.assignee == before.assignee
      && after.status == (if status.value.value == New && before.assignee.Some? then Queued else status.value.value)
      && after.run == (if after.status == Queued then None else before.run)
      && after.reason == (if after.status == NeedsReview && before.status == NeedsReview then before.reason else NoReason)
  }

  /** What an accepted move stores besides the order of the lists. */
  lemma {:induction false} MoveStored(b: Board, id: Id, bucket: Option<Id>, target: Target, status: Option<Parsed<Status>>)
    requires Inv(b) && MoveTask(b, id, bucket, target, status).Ok?
    ensures var b' := MoveTask(b, id, bucket, target, status).value;
      && id in b.tasks && b'.tasks.Keys == b.tasks.Keys && b' == b.(tasks := b'.tasks)
      && FlowMoved(b.tasks[id].flow, status, b'.tasks[id].flow)
      && b'.tasks[id].content == b.tasks[id].content
      && forall other :: other in b.tasks && other != id ==>
           b'.tasks[other].content == b.tasks[other].content && b'.tasks[other].flow == b.tasks[other].flow
  {
    hide MovedRows, OrderWithout, MovePosition, MoveOk, RowsOk, Measured, MovedFlow;
    MoveShape(b, id, bucket, target, status);
    var position := MovePosition(b.tasks, id, bucket.value, target).value;
    MovedRowsShape(b.tasks, MovedRows(b.tasks, id, bucket.value, position), id, bucket.value, position);
    if status.Some? {
      MoveDecides(b.tasks[id].flow, b.tasks[id].content.kind, status.value, b.agents);
    }
  }

  /** Exactly which moves are accepted: those of a top-level task to one place in a list of the account, by a
      position in the list, beside a task of the list, at the end or where the task is; and a status the task may take. */
  lemma {:induction false} MoveAccepted(b: Board, id: Id, bucket: Option<Id>, target: Target, status: Option<Parsed<Status>>)
    requires Inv(b)
    ensures MoveTask(b, id, bucket, target, status).Ok? <==>
      && bucket.Some? && id in b.tasks && b.tasks[id].place.parent.None? && bucket.value in b.buckets
      && var task, ids := b.tasks[id], OrderWithout(b.tasks, bucket.value, id);
      && (if target.reference.Some? then !target.preserve && !target.append && target.side.Some? && target.reference.value in ids
          else if target.preserve || target.append then target.position.None? && target.preserve != target.append
          else target.position.Some? && 0 <= target.position.value <= |ids|)
      && (status.Some? ==>
            && status.value.Parsed? && task.content.kind == Action
            && (task.flow.assignee.Some? && task.flow.assignee.value !in b.agents ==> status.value.value in {NeedsReview, Done}))
  {
    hide MovedRows, OrderWithout, MovePosition, RowsOk, Measured;
    if id in b.tasks && bucket.Some? {
      ParentElsewhere(b, id);
      if TargetOk(target) {
        MovePositionMeans(b.tasks, id, bucket.value, target);
      }
    }
  }

  /** A subtask is in its parent's list, and its parent is another task. */
  lemma {:induction false} ParentElsewhere(b: Board, id: Id)
    requires Inv(b) && id in b.tasks
    ensures var parent := b.tasks[id].place.parent;
      parent != Some(id) && (parent.Some? ==> parent.value in b.tasks && b.tasks[parent.value].place.bucket == b.tasks[id].place.bucket)
  {
    hide Measured;
  }

  // ---------------------------------------------------------------- creation

  /** The parent a creation names. */
  function ParentOf(draft: Draft, endpoint: Endpoint): Option<Id> {
    if endpoint.ParentEndpoint? then Some(endpoint.id) else draft.parent
  }

  /** The row a creation that is no retry stores: as described, in its parent's list or else in the list it was
      sent to, queued if it is assigned, without a run. */
  lemma {:induction false} CreateStored(b: Board, draft: Draft, endpoint: Endpoint, inbox: Id, id: Id, now: int)
    requires CreateTask(b, draft, endpoint, inbox, id, now).Ok? && (draft.key.Some? ==> draft.key.value !in b.keys)
    ensures var (b', task) := CreateTask(b, draft, endpoint, inbox, id, now).value;
      var parent := ParentOf(draft, endpoint);
      && task == id && id !in b.tasks && id in b'.tasks && b'.tasks == b.tasks[id := b'.tasks[id]]
      && b' == b.(tasks := b'.tasks, keys := b'.keys, usage := b'.usage)
      && var row := b'.tasks[id];
      && row.content.title == draft.title && row.content.description == draft.description
      && Parsed(row.content.date) == draft.date && Parsed(row.content.priority) == draft.priority && row.content.kind == Action
      && row.place.parent == parent && row.place.createdAt == now
      && (parent.Some? ==> parent.value in b.tasks && row.place.bucket == b.tasks[parent.value].place.bucket)
      && (parent.None? ==> row.place.bucket == if endpoint.ListEndpoint? then endpoint.id else inbox)
      && row.flow.assignee == draft.assignee && row.flow.run == None && row.flow.reason == NoReason
      && (draft.assignee.Some? ==> row.flow.status == Queued)
      && (draft.assignee.None? && draft.status.Some? ==> Parsed(row.flow.status) == draft.status.value)
      && (draft.assignee.None? && draft.status.None? ==> row.flow.status == New)
      && (draft.key.Some? ==> draft.key.value in b'.keys && b'.keys[draft.key.value].task == Some(id))
      && (forall key :: key in b.keys ==> key in b'.keys && b'.keys[key] == b.keys[key])
  {
    hide NextOrder, Charged;
  }

  /** Exactly which creations that are no retries are accepted. */
  lemma {:induction false} CreateAccepted(b: Board, draft: Draft, endpoint: Endpoint, inbox: Id, id: Id, now: int)
    requires Inv(b) && (draft.key.Some? ==> draft.key.value !in b.keys)
    ensures CreateTask(b, draft, endpoint, inbox, id, now).Ok? <==>
      && draft.title != [] && draft.date.Parsed? && draft.kind == Parsed(Action) && draft.priority.Parsed?
      && draft.status != Some(Malformed) && (draft.key.Some? ==> |draft.key.value| <= TASK_IDEMPOTENCY_BYTES)
      && var parent := ParentOf(draft, endpoint);
      && (parent.Some? ==> parent.value in b.tasks && b.tasks[parent.value].place.parent.None?)
      && (parent.None? ==> (if endpoint.ListEndpoint? then endpoint.id else inbox) in b.buckets)
      && (draft.assignee.Some? ==> draft.assignee.value in b.agents) && id !in b.tasks
      && b.usage.tasks < b.limits.tasks && b.usage.bytes + |draft.title| + |draft.description| <= b.limits.bytes
  {
    hide NextOrder, Measured;
    UsageNonNegative(b);
  }

  // ---------------------------------------------------------------- entries and deletions

  /** Exactly which entries that are no repetitions are accepted: the author may speak on the task, there is room
      for one more on it, and its body is within both limits. */
  lemma {:induction false} EntryAccepted(b: Board, caller: Option<Caller>, input: EntryInput, id: Id)
    requires Inv(b) && !(exists e :: Replayed(b, caller, input, e))
    ensures CreateTaskEntry(b, caller, input, id).Ok? <==>
      && input.body != [] && input.kind.Parsed? && |input.body| <= TASK_ENTRY_BYTES
      && (input.key.Some? ==> |input.key.value| <= TASK_IDEMPOTENCY_BYTES)
      && (caller.Some? && caller.value.run.Some? ==> input.key.Some?)
      && input.task in b.tasks && id !in b.entries
      && |(set e | e in b.entries && b.entries[e].task == input.task)| < MAX_TASK_ENTRIES
      && b.usage.bytes + |input.body| <= b.limits.bytes
      && (caller.Some? ==>
            var flow := b.tasks[input.task].flow;
            && flow.assignee == Some(caller.value.agent) && caller.value.agent in b.agents
            && flow.run == caller.value.run && (flow.run.Some? ==> flow.status == Working))
  {
    hide RowsOk, Measured;
    UsageNonNegative(b);
    assert EntriesOf(b.entries, {input.task}).Keys == set e | e in b.entries && b.entries[e].task == input.task;
  }

  /** Every stored task can be deleted: the counters never stand in the way. */
  lemma {:induction false} DeleteAccepted(b: Board, id: Id)
    requires Inv(b)
    ensures DeleteTask(b, id).Ok? <==> id in b.tasks
  {
    hide RowsOk, Measured, Cascade, Sum, StorageOf;
    if id in b.tasks {
      DeletionCounted(b, {id} + ChildrenOf(b.tasks, id));
    }
  }

  /** Every list but the only inbox can be deleted. */
  lemma {:induction false} DeleteBucketAccepted(b: Board, bucket: Id)
    requires Inv(b)
    ensures DeleteBucket(b, bucket).Ok? <==>
      bucket in b.buckets && (b.buckets[bucket] ==> exists other :: other in b.buckets && other != bucket && b.buckets[other])
  {
    hide Measured, Cascade, Sum, StorageOf;
    assert Nested(b.tasks);
    BucketCascade(b.tasks, bucket);
    DeletionCounted(b, InBucket(b.tasks, bucket));
  }

  /** A plain reorder is accepted exactly if the list exists and holds every task named; each of them gets the last
      position at which it is named, and nothing else changes. */
  lemma {:induction false} ReorderStored(b: Board, bucket: Id, ids: seq<Id>)
    ensures ReorderTasks(b, bucket, ids).Ok? <==>
      bucket in b.buckets && forall i :: 0 <= i < |ids| ==> ids[i] in b.tasks && b.tasks[ids[i]].place.bucket == bucket
    ensures ReorderTasks(b, bucket, ids).Ok? ==>
      var b' := ReorderTasks(b, bucket, ids).value;
      && b' == b.(tasks := b'.tasks) && b'.tasks.Keys == b.tasks.Keys
      && forall id :: id in b.tasks ==>
           if id in ids then exists i :: 0 <= i < |ids| && ids[i] == id && id !in ids[i + 1..] && b'.tasks[id] == Renumber(b.tasks[id], i)
           else b'.tasks[id] == b.tasks[id]
  {
    hide NumberedFrom;
    if ReorderTasks(b, bucket, ids).Ok? {
      var b' := ReorderTasks(b, bucket, ids).value;
      forall id | id in b.tasks
        ensures b'.tasks.Keys == b.tasks.Keys
        ensures if id in ids then exists i :: 0 <= i < |ids| && ids[i] == id && id !in ids[i + 1..] && b'.tasks[id] == Renumber(b.tasks[id], i)
                else b'.tasks[id] == b.tasks[id]
      {
        assert ids[0..] == ids;
        var last := if id in ids then LastAt(ids, id) else 0;
        ReorderTasksNumbers(b.tasks, ids, 0, id, last);
      }
      NumberedFromShape(b.tasks, ids, 0);
    }
  }

  function LastAt(ids: seq<Id>, id: Id): (i: nat)
    requires id in ids
    ensures i < |ids| && ids[i] == id && id !in ids[i + 1..]
  {
    var last := |ids| - 1;
    if ids[last] == id then last
    else
      assert ids == ids[..last] + [ids[last]];
      var i := LastAt(ids[..last], id);
      assert ids[i + 1..] == ids[..last][i + 1..] + [ids[last]];
      i
  }

  // ---------------------------------------------------------------- lists

  /** A new list is added to the others; if it is the inbox, none of them is any more. */
  lemma {:induction false} BucketCreated(b: Board, id: Id, inbox: bool)
    ensures CreateBucket(b, id, inbox).Ok? <==> id !in b.buckets
    ensures CreateBucket(b, id, inbox).Ok? ==>
      var b' := CreateBucket(b, id, inbox).value;
      && b' == b.(buckets := b'.buckets) && b'.buckets.Keys == b.buckets.Keys + {id} && b'.buckets[id] == inbox
      && forall other :: other in b.buckets ==> b'.buckets[other] == (b.buckets[other] && !inbox)
  {
  }

  /** An edit of a list is accepted exactly if it is valid and does not take the marker from the only inbox; naming
      a list the inbox takes the marker from the others. */
  lemma {:induction false} BucketEdited(b: Board, id: Id, marker: Option<bool>, valid: bool)
    ensures UpdateBucket(b, id, marker, valid).Ok? <==>
      && id in b.buckets && valid
      && (b.buckets[id] && marker == Some(false) ==> exists other :: other in b.buckets && other != id && b.buckets[other])
    ensures UpdateBucket(b, id, marker, valid).Ok? ==>
      var b' := UpdateBucket(b, id, marker, valid).value;
      && b' == b.(buckets := b'.buckets) && b'.buckets.Keys == b.buckets.Keys
      && b'.buckets[id] == (if marker.Some? then marker.value else b.buckets[id])
      && forall other :: other in b.buckets && other != id ==>
           b'.buckets[other] == (b.buckets[other] && !(marker == Some(true) && !b.buckets[id]))
  {
  }

  // ---------------------------------------------------------------- repetitions

  /** What repeating an entry under its key does: it is accepted exactly if it says the same under the same run,
      stores nothing, and answers with the first entry and where the task stands, for a managed entry where it
      stood then. */
  lemma {:induction false} EntryRepeated(b: Board, caller: Option<Caller>, input: EntryInput, id: Id, e: Id)
    requires Inv(b) && EntryInputOk(caller, input) && input.key.Some? && input.task in b.tasks
    requires caller.Some? ==>
      b.tasks[input.task].flow.assignee == Some(caller.value.agent) && b.tasks[input.task].flow.run == caller.value.run
    requires e in b.entries && b.entries[e].task == input.task && b.entries[e].author == AuthorOf(caller) && b.entries[e].key == input.key
    ensures var r, first := CreateTaskEntry(b, caller, input, id), b.entries[e];
      && (r.Ok? <==> first.kind == input.kind.value && first.body == input.body && first.run == RunOf(caller))
      && (r.Ok? ==>
            && r.value.0 == b && r.value.1.entry == e
            && (first.run.None? ==> r.value.1.status == b.tasks[input.task].flow.status && r.value.1.reason == b.tasks[input.task].flow.reason)
            && (first.run.Some? && first.kind == Comment ==> r.value.1.status == Working && r.value.1.reason == NoReason)
            && (first.run.Some? && first.kind == Output ==> r.value.1.status == NeedsReview && r.value.1.reason == OutputReason))
  {
    hide Measured, InsertEntry;
    assert Replayed(b, caller, input, e);
    forall f | Replayed(b, caller, input, f)
      ensures f == e
    {
      assert SameKey(b.entries[f], b.entries[e].task, b.entries[e].author, b.entries[e].key);
    }
  }

  /** Whether an entry is stored or found, an agent gets an answer only on a task that is its own, under the run that
      owns the task. */
  lemma {:induction false} EntryAnswered(b: Board, caller: Option<Caller>, input: EntryInput, id: Id)
    requires CreateTaskEntry(b, caller, input, id).Ok?
    ensures input.task in b.tasks
    ensures caller.Some? ==>
      b.tasks[input.task].flow.assignee == Some(caller.value.agent) && b.tasks[input.task].flow.run == caller.value.run
  {
  }

  /** Why an agent's entry is refused: under another run than the one that owns the task, exactly as a mismatch, and
      repeated with other words, exactly as a misused key. */
  lemma {:induction false} EntryRefusals(b: Board, caller: Option<Caller>, input: EntryInput, id: Id)
    requires Inv(b) && EntryInputOk(caller, input)
    ensures var r := CreateTaskEntry(b, caller, input, id);
      && (r == Err(ManagedRunMismatch) <==>
            && caller.Some? && input.task in b.tasks && b.tasks[input.task].flow.assignee == Some(caller.value.agent)
            && b.tasks[input.task].flow.run != caller.value.run)
      && (r == Err(IdempotencyKey) <==> exists e ::
            && Replayed(b, caller, input, e)
            && !(b.entries[e].kind == input.kind.value && b.entries[e].body == input.body && b.entries[e].run == RunOf(caller)))
  {
    hide Measured;
    if e :| Replayed(b, caller, input, e) {
      forall f | Replayed(b, caller, input, f)
        ensures f == e
      {
        assert SameKey(b.entries[f], b.entries[e].task, b.entries[e].author, b.entries[e].key);
      }
    }
  }

  /** Why a creation under a used key is refused: exactly as a misused key if it asks for something else, and as gone
      if its task was deleted. */
  lemma {:induction false} CreateRefusals(b: Board, draft: Draft, endpoint: Endpoint, inbox: Id, id: Id, now: int, key: Text)
    requires draft.key == Some(key) && key in b.keys && PreparedOf(draft, endpoint).Ok?
    requires endpoint.ParentEndpoint? ==> endpoint.id in b.tasks && b.tasks[endpoint.id].place.parent.None?
    ensures var r, p := CreateTask(b, draft, endpoint, inbox, id, now), PreparedOf(draft, endpoint).value;
      && (r == Err(IdempotencyKey) <==> !Replays(p, b.keys[key], b.buckets.Keys))
      && (r == Err(IdempotencyGone) <==> Replays(p, b.keys[key], b.buckets.Keys) && b.keys[key].task.None?)
      && (r.Ok? <==> Replays(p, b.keys[key], b.buckets.Keys) && b.keys[key].task.Some?)
      && (r.Ok? ==> r.value == (b, b.keys[key].task.value))
  {
    hide Replays, InsertTask;
  }

  /** A key forgets its task exactly with the step that deletes it. */
  lemma {:induction false} KeyForgets(b: Board, step: Step, key: Text)
    requires Inv(b) && key in b.keys && b.keys[key].task.Some?
    ensures key in After(b, step).keys
    ensures After(b, step).keys[key].task == if b.keys[key].task.value in After(b, step).tasks then b.keys[key].task else None
  {
    hide After, Inv;
    KeyTaskStored(b, key);
    if step.Create? {
      CreationRemembers(b, step, key);
    } else if step.RemoveTask? || step.RemoveBucket? {
      DeletionForgets(b, step, key);
    } else {
      KeysUntouched(b, step);
      StaysStored(b, step, b.keys[key].task.value);
    }
  }

  lemma {:induction false} KeyTaskStored(b: Board, key: Text)
    requires Inv(b) && key in b.keys && b.keys[key].task.Some?
    ensures b.keys[key].task.value in b.tasks
  {
  }

  lemma {:induction false} StaysStored(b: Board, step: Step, id: Id)
    requires Inv(b) && id in b.tasks && !step.RemoveTask? && !step.RemoveBucket?
    ensures id in After(b, step).tasks
  {
    hide Apply, Inv;
    if Apply(b, step).Ok? && id !in Apply(b, step).value.tasks {
      DisappearsByDeletion(b, step, id);
    }
  }

  lemma {:induction false} CreationRemembers(b: Board, step: Step, key: Text)
    requires step.Create? && key in b.keys && b.keys[key].task.Some? && b.keys[key].task.value in b.tasks
    ensures key in After(b, step).keys && After(b, step).keys[key] == b.keys[key] && b.keys[key].task.value in After(b, step).tasks
  {
    hide NextOrder, Replays, FingerprintOf, Charged;
  }

  lemma {:induction false} DeletionForgets(b: Board, step: Step, key: Text)
    requires (step.RemoveTask? || step.RemoveBucket?) && key in b.keys && b.keys[key].task.Some? && b.keys[key].task.value in b.tasks
    ensures key in After(b, step).keys
    ensures After(b, step).keys[key].task == if b.keys[key].task.value in After(b, step).tasks then b.keys[key].task else None
  {
    hide Cascade, Sum, StorageOf, Charged;
  }

  /** A key knows its task for as long as the task is stored. */
  lemma {:induction false} KeyRemembers(boards: seq<Board>, steps: seq<Step>, key: Text, from: nat, until: nat)
    requires Runs(boards, steps) && Fresh(boards[0]) && from <= until <= |steps| && key in boards[from].keys && boards[from].keys[key].task.Some?
    ensures key in boards[until].keys
    ensures boards[until].keys[key].task == boards[from].keys[key].task <==>
      forall k :: from <= k <= until ==> boards[from].keys[key].task.value in boards[k].tasks
    ensures boards[until].keys[key].task == boards[from].keys[key].task || boards[until].keys[key].task == None
    decreases until - from
  {
    hide After, Inv, Fresh;
    ReachableInv(boards, steps, from);
    KeyTaskStored(boards[from], key);
    if from == until {
    } else {
      assert boards[from + 1] == After(boards[from], steps[from]);
      KeyForgets(boards[from], steps[from], key);
      if boards[from + 1].keys[key].task.Some? {
        KeyRemembers(boards, steps, key, from + 1, until);
      } else {
        KeyLasts(boards, steps, key, from + 1, until);
      }
    }
  }

  /** Sending a creation again, word for word and the same way, returns its task and stores nothing for as long as
      the task exists, whatever happened to the task meanwhile, and is refused once the task is deleted. */
  lemma {:induction false} SameRetryAccepted(boards: seq<Board>, steps: seq<Step>, i: nat, j: nat, key: Text, inbox: Id, id: Id, now: int)
    requires Runs(boards, steps) && Fresh(boards[0]) && i < j < |boards| && steps[i].Create?
    requires steps[i].draft.key == Some(key) && key !in boards[i].keys && Apply(boards[i], steps[i]).Ok?
    ensures var first := CreateTask(boards[i], steps[i].draft, steps[i].endpoint, steps[i].inbox, steps[i].task, steps[i].now).value.1;
      var r := CreateTask(boards[j], steps[i].draft, steps[i].endpoint, inbox, id, now);
      && (r.Ok? <==> forall k :: i < k <= j ==> first in boards[k].tasks)
      && (r.Ok? ==> r.value == (boards[j], first))
  {
    hide CreateTask, FingerprintOf, Replays, PreparedOf, Inv, Fresh;
    var one := steps[i];
    FirstRecord(boards[i], one.draft, one.endpoint, one.inbox, one.task, one.now, key);
    assert boards[i + 1] == CreateTask(boards[i], one.draft, one.endpoint, one.inbox, one.task, one.now).value.0 by {
      assert boards[i + 1] == After(boards[i], one);
    }
    KeyLasts(boards, steps, key, i + 1, j);
    KeyRemembers(boards, steps, key, i + 1, j);
    ReachableInv(boards, steps, j);
    RetryFound(boards[j], one.draft, one.endpoint, inbox, id, now, key);
  }

  /** A retry that finds its own request on record. */
  lemma {:induction false} RetryFound(b: Board, draft: Draft, endpoint: Endpoint, inbox: Id, id: Id, now: int, key: Text)
    requires Inv(b) && draft.key == Some(key) && key in b.keys && PreparedOf(draft, endpoint).Ok?
    requires var p := PreparedOf(draft, endpoint).value; b.keys[key].fingerprint == FingerprintOf(p) && b.keys[key].data == DataOf(p)
    ensures var r, task := CreateTask(b, draft, endpoint, inbox, id, now), b.keys[key].task;
      && (r.Ok? <==> task.Some?)
      && (r.Ok? ==> r.value == (b, task.value) && task.value in b.tasks)
  {
    hide FingerprintOf, InsertTask, Measured;
    var p := PreparedOf(draft, endpoint).value;
    if b.keys[key].task.Some? {
      var task := b.keys[key].task.value;
      assert task in b.tasks && b.tasks[task].place.parent == p.parent;
      assert p.parent.Some? ==> p.parent.value in b.tasks && b.tasks[p.parent.value].place.parent.None?;
    }
  }
}
