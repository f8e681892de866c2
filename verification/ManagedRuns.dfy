/** The managed-run protocol: how a run comes to own a task, what agents may do meanwhile, and how
    ownership ends. */
module ManagedRuns {
  import opened Basics
  import opened Boards
  import opened Workflow
  import opened Ordering
  import opened Storage
  import opened SubtaskOrder
  import opened Store
  import opened StoreInvariants

  ghost predicate Owns(b: Board, id: Id, run: Id) {
    id in b.tasks && b.tasks[id].flow.run == Some(run)
  }

  ghost predicate InQueue(b: Board, id: Id) {
    id in b.tasks && b.tasks[id].flow.status == Queued
  }

  /** The step carries an agent's credential. */
  predicate ByAgent(step: Step) {
    match step
    case Update(actor, _, _) => actor.AgentActor?
    case Claim(caller, _) => caller.Some?
    case AddEntry(caller, _, _) => caller.Some?
    case _ => false
  }

  /** A person's step on this task after which it is queued or assigned to somebody else. */
  ghost predicate TakesAway(b: Board, step: Step, id: Id) {
    && ((step.Update? && step.actor.Person?) || step.Move?) && step.task == id
    && id in b.tasks && id in After(b, step).tasks
    && (InQueue(After(b, step), id) || After(b, step).tasks[id].flow.assignee != b.tasks[id].flow.assignee)
  }

  // ---------------------------------------------------------------- what one step does to one workflow

  /** All that an accepted step can do to the workflow of a stored task that it does not delete. */
  ghost predicate FlowStep(b: Board, step: Step, id: Id, before: Flow, after: Flow) {
    match step
    case Update(actor, task, edit) =>
      if task != id then after == before
      else
        exists kind, allow ::
          && UpdatedFlow(before, kind, edit.flow, allow, b.agents) == Ok(after)
          && (actor.AgentActor? ==>
                && edit.flow.assignee.None? && !allow && before.assignee == Some(actor.caller.agent)
                && before.run == actor.caller.run && (before.run.Some? ==> edit.flow.status.None? && edit.flow.done.None?))
    case Move(task, _, _, status) =>
      if task != id || status.None? then after == before
      else exists kind :: MovedFlow(before, kind, status.value, b.agents) == Ok(after)
    case Claim(caller, task) =>
      if task != id then after == before
      else
        && before.status == Queued && (caller.Some? ==> before.assignee == Some(caller.value.agent))
        && after == before.(status := Working, run := RunOf(caller), reason := NoReason)
    case AddEntry(caller, input, _) =>
      after == before || (input.task == id && input.kind == Parsed(Output) && SpeakError(before, caller, b.agents).None?
        && after == before.(status := NeedsReview, reason := OutputReason))
    case _ => after == before
  }

  lemma {:induction false} StepFlow(b: Board, step: Step, id: Id)
    requires Inv(b) && Apply(b, step).Ok? && id in b.tasks && id in Apply(b, step).value.tasks
    ensures FlowStep(b, step, id, b.tasks[id].flow, Apply(b, step).value.tasks[id].flow)
    ensures var content := Apply(b, step).value.tasks[id].content;
            if step.Update? && step.task == id then EditedContent(b.tasks[id].content, step.edit) == Ok(content)
            else content == b.tasks[id].content
  {
    hide CreateTask, UpdateTask, MoveTask, ClaimTask, CreateTaskEntry, DeleteTask, DeleteBucket, ReorderSubtasks, ReorderTasks, Inv;
    match step
    case Create(draft, endpoint, inbox, task, now) => CreateFlow(b, draft, endpoint, inbox, task, now, id);
    case Update(actor, task, edit) => UpdateFlow(b, actor, task, edit, id);
    case Move(task, bucket, target, status) => MoveFlow(b, task, bucket, target, status, id);
    case Claim(caller, task) => ClaimFlow(b, caller, task, id);
    case AddEntry(caller, input, entry) => EntryFlow(b, caller, input, entry, id);
    case RemoveTask(task) => DeleteFlow(b, task, id);
    case RemoveBucket(bucket) => DeleteBucketFlow(b, bucket, id);
    case OrderSubtasks(parent, ids) => OrderSubtasksFlow(b, parent, ids, id);
    case OrderTasks(bucket, ids) => OrderTasksFlow(b, bucket, ids, id);
    case AddBucket(_, _) =>
    case EditBucket(_, _, _) =>
    case SetAgents(agents) =>
    case SetLimits(limits) =>
  }

  lemma {:induction false} CreateFlow(b: Board, draft: Draft, endpoint: Endpoint, inbox: Id, task: Id, now: int, id: Id)
    requires CreateTask(b, draft, endpoint, inbox, task, now).Ok? && id in b.tasks
    ensures id in CreateTask(b, draft, endpoint, inbox, task, now).value.0.tasks
    ensures CreateTask(b, draft, endpoint, inbox, task, now).value.0.tasks[id] == b.tasks[id]
  {
    hide NextOrder;
  }

  lemma {:induction false} UpdateFlow(b: Board, actor: Actor, task: Id, edit: TaskEdit, id: Id)
    requires Inv(b) && UpdateTask(b, actor, task, edit).Ok? && id in b.tasks
    ensures id in UpdateTask(b, actor, task, edit).value.tasks
    ensures FlowStep(b, Update(actor, task, edit), id, b.tasks[id].flow, UpdateTask(b, actor, task, edit).value.tasks[id].flow)
    ensures var content := UpdateTask(b, actor, task, edit).value.tasks[id].content;
            if id == task then EditedContent(b.tasks[id].content, edit) == Ok(content) else content == b.tasks[id].content
  {
    hide ListChange, UpdatedFlow, EditedContent, RowsOk, Measured, MoveOk, Charged;
    var b' := UpdateTask(b, actor, task, edit).value;
    ListChangeMeans(b, task, edit);
    if id == task {
      var content := EditedContent(b.tasks[id].content, edit).value;
      assert UpdatedFlow(b.tasks[id].flow, content.kind, edit.flow, actor.Person? && actor.allowWorking, b.agents) == Ok(b'.tasks[id].flow);
    }
  }

  lemma {:induction false} MoveFlow(b: Board, task: Id, bucket: Option<Id>, target: Target, status: Option<Parsed<Status>>, id: Id)
    requires Inv(b) && MoveTask(b, task, bucket, target, status).Ok? && id in b.tasks
    ensures id in MoveTask(b, task, bucket, target, status).value.tasks
    ensures FlowStep(b, Move(task, bucket, target, status), id, b.tasks[id].flow, MoveTask(b, task, bucket, target, status).value.tasks[id].flow)
    ensures MoveTask(b, task, bucket, target, status).value.tasks[id].content == b.tasks[id].content
  {
    hide MovedRows, OrderWithout, MovePosition, MoveOk, RowsOk, Measured;
    MoveShape(b, task, bucket, target, status);
    var position := MovePosition(b.tasks, task, bucket.value, target).value;
    MovedRowsShape(b.tasks, MovedRows(b.tasks, task, bucket.value, position), task, bucket.value, position);
  }

  lemma {:induction false} ClaimFlow(b: Board, caller: Option<Caller>, task: Id, id: Id)
    requires ClaimTask(b, caller, task).Ok? && id in b.tasks
    ensures id in ClaimTask(b, caller, task).value.tasks
    ensures FlowStep(b, Claim(caller, task), id, b.tasks[id].flow, ClaimTask(b, caller, task).value.tasks[id].flow)
    ensures ClaimTask(b, caller, task).value.tasks[id].content == b.tasks[id].content
  {
  }

  lemma {:induction false} EntryFlow(b: Board, caller: Option<Caller>, input: EntryInput, entry: Id, id: Id)
    requires CreateTaskEntry(b, caller, input, entry).Ok? && id in b.tasks
    ensures id in CreateTaskEntry(b, caller, input, entry).value.0.tasks
    ensures FlowStep(b, AddEntry(caller, input, entry), id, b.tasks[id].flow, CreateTaskEntry(b, caller, input, entry).value.0.tasks[id].flow)
    ensures CreateTaskEntry(b, caller, input, entry).value.0.tasks[id].content == b.tasks[id].content
  {
  }

  lemma {:induction false} DeleteFlow(b: Board, task: Id, id: Id)
    requires DeleteTask(b, task).Ok? && id in b.tasks && id in DeleteTask(b, task).value.tasks
    ensures DeleteTask(b, task).value.tasks[id] == b.tasks[id]
  {
    hide Cascade, Sum;
  }

  lemma {:induction false} DeleteBucketFlow(b: Board, bucket: Id, id: Id)
    requires DeleteBucket(b, bucket).Ok? && id in b.tasks && id in DeleteBucket(b, bucket).value.tasks
    ensures DeleteBucket(b, bucket).value.tasks[id] == b.tasks[id]
  {
    hide Cascade, Sum;
  }

  lemma {:induction false} OrderSubtasksFlow(b: Board, parent: Id, ids: seq<Id>, id: Id)
    requires ReorderSubtasks(b, parent, ids).Ok? && id in b.tasks
    ensures id in ReorderSubtasks(b, parent, ids).value.tasks
    ensures ReorderSubtasks(b, parent, ids).value.tasks[id].flow == b.tasks[id].flow
    ensures ReorderSubtasks(b, parent, ids).value.tasks[id].content == b.tasks[id].content
  {
    hide ReorderedRows, Touched;
    var rows := ReorderSubtasks(b, parent, ids).value.tasks;
    TouchedMeans(b.tasks, parent);
    ReorderMeans(b.tasks, parent, ids, Touched(b.tasks, parent));
    assert Renumber(rows[id], 0).flow == b.tasks[id].flow && Renumber(rows[id], 0).content == b.tasks[id].content;
  }

  lemma {:induction false} OrderTasksFlow(b: Board, bucket: Id, ids: seq<Id>, id: Id)
    requires ReorderTasks(b, bucket, ids).Ok? && id in b.tasks
    ensures id in ReorderTasks(b, bucket, ids).value.tasks
    ensures ReorderTasks(b, bucket, ids).value.tasks[id].flow == b.tasks[id].flow
    ensures ReorderTasks(b, bucket, ids).value.tasks[id].content == b.tasks[id].content
  {
    NumberedFromShape(b.tasks, ids, 0);
    var row := Renumber(NumberedFrom(b.tasks, ids, 0)[id], 0);
    assert row.flow == b.tasks[id].flow && row.content == b.tasks[id].content;
  }

  /** A task that a step makes appear has no run, and only an insertion makes one appear. */
  lemma {:induction false} AppearsUnowned(b: Board, step: Step, id: Id)
    requires Inv(b) && Apply(b, step).Ok? && id !in b.tasks && id in Apply(b, step).value.tasks
    ensures step.Create? && Apply(b, step).value.tasks[id].flow.run.None?
  {
    hide UpdateTask, MoveTask, ClaimTask, DeleteTask, DeleteBucket, ReorderSubtasks, NumberedFrom, Inv, NextOrder;
    match step
    case Create(draft, endpoint, inbox, task, now) =>
    case Update(actor, task, edit) => KeysAfterUpdate(b, actor, task, edit);
    case Move(task, bucket, target, status) => KeysAfterMove(b, task, bucket, target, status);
    case Claim(caller, task) => KeysAfterClaim(b, caller, task);
    case AddEntry(caller, input, entry) =>
    case RemoveTask(task) => KeysAfterDelete(b, step);
    case RemoveBucket(bucket) => KeysAfterDelete(b, step);
    case OrderSubtasks(parent, ids) => KeysAfterReorder(b, parent, ids);
    case OrderTasks(bucket, ids) => NumberedFromShape(b.tasks, ids, 0);
    case AddBucket(_, _) =>
    case EditBucket(_, _, _) =>
    case SetAgents(agents) =>
    case SetLimits(limits) =>
  }

  lemma {:induction false} KeysAfterUpdate(b: Board, actor: Actor, task: Id, edit: TaskEdit)
    requires Inv(b) && UpdateTask(b, actor, task, edit).Ok?
    ensures UpdateTask(b, actor, task, edit).value.tasks.Keys == b.tasks.Keys
  {
    hide UpdateTask, ListChange, RowsOk, Measured, MoveOk;
    UpdateShape(b, actor, task, edit);
    ListChangeMeans(b, task, edit);
  }

  lemma {:induction false} KeysAfterMove(b: Board, task: Id, bucket: Option<Id>, target: Target, status: Option<Parsed<Status>>)
    requires Inv(b) && MoveTask(b, task, bucket, target, status).Ok?
    ensures MoveTask(b, task, bucket, target, status).value.tasks.Keys == b.tasks.Keys
  {
    hide MoveTask, MovedRows, OrderWithout, MovePosition, MoveOk, RowsOk, Measured;
    MoveShape(b, task, bucket, target, status);
    var position := MovePosition(b.tasks, task, bucket.value, target).value;
    MovedRowsShape(b.tasks, MovedRows(b.tasks, task, bucket.value, position), task, bucket.value, position);
  }

  lemma {:induction false} KeysAfterClaim(b: Board, caller: Option<Caller>, task: Id)
    requires ClaimTask(b, caller, task).Ok?
    ensures ClaimTask(b, caller, task).value.tasks.Keys == b.tasks.Keys
  {
  }

  lemma {:induction false} KeysAfterDelete(b: Board, step: Step)
    requires (step.RemoveTask? || step.RemoveBucket?) && Apply(b, step).Ok?
    ensures Apply(b, step).value.tasks.Keys <= b.tasks.Keys
  {
    hide Cascade, Sum;
  }

  lemma {:induction false} KeysAfterReorder(b: Board, parent: Id, ids: seq<Id>)
    requires ReorderSubtasks(b, parent, ids).Ok?
    ensures ReorderSubtasks(b, parent, ids).value.tasks.Keys == b.tasks.Keys
  {
    hide ReorderedRows, Touched;
    TouchedMeans(b.tasks, parent);
    ReorderMeans(b.tasks, parent, ids, Touched(b.tasks, parent));
  }

  // ---------------------------------------------------------------- ownership

  /** Which claims are accepted, and that a claim touches nothing but the task's workflow. */
  lemma {:induction false} ClaimedExactly(b: Board, caller: Option<Caller>, id: Id)
    ensures ClaimTask(b, caller, id).Ok? <==>
      InQueue(b, id) && b.tasks[id].content.kind == Action && (caller.Some? ==> b.tasks[id].flow.assignee == Some(caller.value.agent))
    ensures ClaimTask(b, caller, id).Err? ==> ClaimTask(b, caller, id).error == TaskUnavailable
    ensures ClaimTask(b, caller, id).Ok? ==>
      var b' := ClaimTask(b, caller, id).value;
      b' == b.(tasks := b.tasks[id := b.tasks[id].(flow := Flow(Working, b.tasks[id].flow.assignee, RunOf(caller), NoReason))])
  {
  }

  /** A run comes to own a task only by claiming it: the task was queued and assigned to the agent
      whose credential carries the run. */
  lemma {:induction false} OwnershipBegins(b: Board, step: Step, id: Id, run: Id)
    requires Inv(b) && !Owns(b, id, run) && Owns(After(b, step), id, run)
    ensures step.Claim? && step.task == id && step.caller.Some? && step.caller.value.run == Some(run)
    ensures InQueue(b, id) && b.tasks[id].flow.assignee == Some(step.caller.value.agent)
    ensures After(b, step).tasks[id].flow.status == Working
  {
    hide Apply, Inv;
    if id in b.tasks {
      StepFlow(b, step, id);
    } else {
      AppearsUnowned(b, step, id);
    }
  }

  /** Ownership ends with a step if and only if the step is a person's that requeues or reassigns the
      task, or a deletion that takes the task along. */
  lemma {:induction false} OwnershipEnds(b: Board, step: Step, id: Id, run: Id)
    requires Inv(b) && Owns(b, id, run)
    ensures !Owns(After(b, step), id, run) <==> TakesAway(b, step, id) || id !in After(b, step).tasks
    ensures id !in After(b, step).tasks ==> step.RemoveTask? || step.RemoveBucket?
  {
    hide Apply, Inv;
    var b' := After(b, step);
    if Apply(b, step).Ok? {
      if id in b'.tasks {
        StepFlow(b, step, id);
        assert FlowOk(b.tasks[id].flow) && FlowOk(b'.tasks[id].flow) by {
          StepKeeps(b, step);
          InvFlow(b, id);
          InvFlow(b', id);
        }
        OwnedFlow(b, step, id, b.tasks[id].flow, b'.tasks[id].flow);
      } else {
        DisappearsByDeletion(b, step, id);
      }
    } else {
      InvFlow(b, id);
    }
  }

  lemma {:induction false} InvFlow(b: Board, id: Id)
    requires Inv(b) && id in b.tasks
    ensures FlowOk(b.tasks[id].flow)
  {
  }

  /** What a step does to the workflow of an owned task: the run stays exactly if the task neither goes
      back to the queue nor changes hands, and only a person's step on the task does either. */
  lemma {:induction false} OwnedFlow(b: Board, step: Step, id: Id, before: Flow, after: Flow)
    requires FlowStep(b, step, id, before, after) && FlowOk(before) && FlowOk(after) && before.run.Some?
    ensures after.run == before.run <==> after.status != Queued && after.assignee == before.assignee
    ensures after.run != before.run ==> ((step.Update? && step.actor.Person?) || step.Move?) && step.task == id
  {
    hide UpdatedFlow, MovedFlow;
    if after != before {
      if step.Update? {
        var kind, allow :|
          && UpdatedFlow(before, kind, step.edit.flow, allow, b.agents) == Ok(after)
          && (step.actor.AgentActor? ==> step.edit.flow == FlowEdit(None, None, None));
        UpdateDecides(before, kind, step.edit.flow, allow, b.agents);
        if step.edit.flow == FlowEdit(None, None, None) {
          PlainEditKeepsFlow(before, kind, step.edit.flow, allow, b.agents);
        }
      } else if step.Move? {
        var kind :| MovedFlow(before, kind, step.status.value, b.agents) == Ok(after);
        MoveDecides(before, kind, step.status.value, b.agents);
      }
    }
  }

  lemma {:induction false} DisappearsByDeletion(b: Board, step: Step, id: Id)
    requires Inv(b) && Apply(b, step).Ok? && id in b.tasks && id !in Apply(b, step).value.tasks
    ensures step.RemoveTask? || step.RemoveBucket?
  {
    hide CreateTask, UpdateTask, MoveTask, ClaimTask, DeleteTask, DeleteBucket, ReorderSubtasks, NumberedFrom, Inv;
    match step
    case Create(draft, endpoint, inbox, task, now) => CreateFlow(b, draft, endpoint, inbox, task, now, id);
    case Update(actor, task, edit) => KeysAfterUpdate(b, actor, task, edit);
    case Move(task, bucket, target, status) => KeysAfterMove(b, task, bucket, target, status);
    case Claim(caller, task) => KeysAfterClaim(b, caller, task);
    case AddEntry(caller, input, entry) =>
    case RemoveTask(task) =>
    case RemoveBucket(bucket) =>
    case OrderSubtasks(parent, ids) => KeysAfterReorder(b, parent, ids);
    case OrderTasks(bucket, ids) => NumberedFromShape(b.tasks, ids, 0);
    case AddBucket(_, _) =>
    case EditBucket(_, _, _) =>
    case SetAgents(agents) =>
    case SetLimits(limits) =>
  }

  /** While a run owns a task, the only step with an agent's credential that changes the task's
      status is an output of that very run, and it takes the task from working to review. */
  lemma {:induction false} OwnedStatusChanges(b: Board, step: Step, id: Id, run: Id)
    requires Inv(b) && Owns(b, id, run) && ByAgent(step) && id in After(b, step).tasks
    requires After(b, step).tasks[id].flow.status != b.tasks[id].flow.status
    ensures step.AddEntry? && step.input.task == id && step.input.kind == Parsed(Output)
    ensures step.caller.value.run == Some(run) && b.tasks[id].flow.assignee == Some(step.caller.value.agent)
    ensures b.tasks[id].flow.status == Working && After(b, step).tasks[id].flow.status == NeedsReview
  {
    hide Apply;
    StepFlow(b, step, id);
    var before, after := b.tasks[id].flow, After(b, step).tasks[id].flow;
    assert FlowOk(before);
    if step.Update? {
      var kind, allow :| UpdatedFlow(before, kind, step.edit.flow, allow, b.agents) == Ok(after) && step.edit.flow == FlowEdit(None, None, None);
      PlainEditKeepsFlow(before, kind, step.edit.flow, allow, b.agents);
    }
  }

  // ---------------------------------------------------------------- over whole runs

  /** The step is an accepted claim of the task. */
  ghost predicate Claims(b: Board, step: Step, id: Id) {
    step.Claim? && step.task == id && Apply(b, step).Ok?
  }

  lemma {:induction false} EntersQueue(boards: seq<Board>, id: Id, from: nat, until: nat)
    requires from <= until < |boards| && !InQueue(boards[from], id) && InQueue(boards[until], id)
    ensures exists k :: from <= k < until && !InQueue(boards[k], id) && InQueue(boards[k + 1], id)
    decreases until - from
  {
    if !InQueue(boards[from + 1], id) {
      EntersQueue(boards, id, from + 1, until);
    } else {
      assert from <= from < until && !InQueue(boards[from], id) && InQueue(boards[from + 1], id);
    }
  }

  /** Each stay in the queue admits at most one claim: between two accepted claims of a task it was
      put back into the queue. */
  lemma {:induction false} OneClaimPerStay(boards: seq<Board>, steps: seq<Step>, id: Id, i: nat, j: nat)
    requires Runs(boards, steps) && i < j < |steps|
    requires Claims(boards[i], steps[i], id) && Claims(boards[j], steps[j], id)
    ensures InQueue(boards[i], id) && !InQueue(boards[i + 1], id) && InQueue(boards[j], id)
    ensures exists k :: i < k < j && !InQueue(boards[k], id) && InQueue(boards[k + 1], id)
  {
    hide ClaimTask;
    assert boards[i + 1] == After(boards[i], steps[i]);
    ClaimedExactly(boards[i], steps[i].caller, id);
    ClaimedExactly(boards[j], steps[j].caller, id);
    EntersQueue(boards, id, i + 1, j);
  }

  ghost predicate EndsOwnership(b: Board, step: Step, id: Id) {
    TakesAway(b, step, id) || id !in After(b, step).tasks
  }

  /** In steps `from` to `until` no person requeues or reassigns the task, and nobody deletes it. */
  ghost predicate Undisturbed(boards: seq<Board>, steps: seq<Step>, id: Id, from: nat, until: nat)
    requires until <= |steps| < |boards|
  {
    forall k :: from <= k < until ==> !EndsOwnership(boards[k], steps[k], id)
  }

  /** Over any run of the server, a run that owns a task owns it all along if and only if no person
      requeues or reassigns the task and nobody deletes it. */
  lemma {:induction false} OwnershipLasts(boards: seq<Board>, steps: seq<Step>, id: Id, run: Id, from: nat, until: nat)
    requires Runs(boards, steps) && Fresh(boards[0]) && from <= until <= |steps| && Owns(boards[from], id, run)
    ensures Undisturbed(boards, steps, id, from, until) <==> forall k :: from <= k <= until ==> Owns(boards[k], id, run)
    decreases until - from
  {
    hide After, Inv, Fresh, TakesAway;
    if from == until {
    } else {
      ReachableInv(boards, steps, from);
      assert boards[from + 1] == After(boards[from], steps[from]);
      OwnershipEnds(boards[from], steps[from], id, run);
      if Owns(boards[from + 1], id, run) {
        OwnershipLasts(boards, steps, id, run, from + 1, until);
        assert Undisturbed(boards, steps, id, from, until) <==> Undisturbed(boards, steps, id, from + 1, until);
      } else {
        assert EndsOwnership(boards[from], steps[from], id);
      }
    }
  }

  // ---------------------------------------------------------------- handing a task over

  /** Every task is an action: the only kind that is created or set. */
  lemma {:induction false} ReachableActions(boards: seq<Board>, steps: seq<Step>, i: nat, id: Id)
    requires Runs(boards, steps) && Fresh(boards[0]) && i < |boards| && id in boards[i].tasks
    ensures boards[i].tasks[id].content.kind == Action
  {
    hide Inv, Apply, FlowStep;
    if i == 0 {
    } else {
      var b, step := boards[i - 1], steps[i - 1];
      assert boards[i - 1 + 1] == After(b, step);
      ReachableInv(boards, steps, i - 1);
      if id in b.tasks {
        ReachableActions(boards, steps, i - 1, id);
        if Apply(b, step).Ok? {
          StepFlow(b, step, id);
        }
      } else {
        CreatedAction(b, step, id);
      }
    }
  }

  lemma {:induction false} CreatedAction(b: Board, step: Step, id: Id)
    requires Inv(b) && Apply(b, step).Ok? && id !in b.tasks && id in Apply(b, step).value.tasks
    ensures Apply(b, step).value.tasks[id].content.kind == Action
  {
    assert step.Create? by {
      hide Apply, Inv;
      AppearsUnowned(b, step, id);
    }
    hide Inv, NextOrder, Charged, Replays, FingerprintOf;
  }

  /** Whoever is handed a task that is not done can claim it at once: in any run of the server, a step
      that gives a stored task to another agent leaves it done, or queued without a run and ready to
      be claimed by that agent, under any run it starts. */
  lemma {:induction false} HandedOverIsClaimable(boards: seq<Board>, steps: seq<Step>, i: nat, id: Id, caller: Caller)
    requires Runs(boards, steps) && Fresh(boards[0]) && i < |steps| && id in boards[i].tasks && id in boards[i + 1].tasks
    requires boards[i + 1].tasks[id].flow.assignee == Some(caller.agent) != boards[i].tasks[id].flow.assignee
    ensures boards[i + 1].tasks[id].flow.run == None
    ensures boards[i + 1].tasks[id].flow.status == Done || ClaimTask(boards[i + 1], Some(caller), id).Ok?
  {
    hide Inv, Apply, UpdatedFlow, MovedFlow, ClaimTask;
    var b, step, after := boards[i], steps[i], boards[i + 1].tasks[id].flow;
    var before := b.tasks[id].flow;
    assert boards[i + 1] == After(b, step);
    ReachableInv(boards, steps, i);
    InvFlow(b, id);
    StepFlow(b, step, id);
    if step.Update? {
      var kind, allow :| UpdatedFlow(before, kind, step.edit.flow, allow, b.agents) == Ok(after);
      UpdateDecides(before, kind, step.edit.flow, allow, b.agents);
      UpdateSettles(before, kind, step.edit.flow, allow, b.agents);
    } else if step.Move? {
      var kind :| MovedFlow(before, kind, step.status.value, b.agents) == Ok(after);
      MoveDecides(before, kind, step.status.value, b.agents);
    }
    ReachableActions(boards, steps, i + 1, id);
    ClaimedExactly(boards[i + 1], Some(caller), id);
  }

  // ---------------------------------------------------------------- repeated entries

  /** The entry that answers this request, with the reply it always gives. */
  ghost predicate Answers(b: Board, caller: Caller, input: EntryInput, e: Id, reply: Reply) {
    && e in b.entries && EntryInputOk(Some(caller), input) && caller.run.Some?
    && b.entries[e] == Entry(input.task, input.kind.value, input.body, Agent(caller.agent), input.key, caller.run)
    && reply == if input.kind.value == Output then Reply(e, NeedsReview, OutputReason) else Reply(e, Working, NoReason)
  }

  /** Whether a managed entry is stored or found, the reply is the one its kind determines. */
  lemma {:induction false} FirstAnswer(b: Board, caller: Caller, input: EntryInput, id: Id) returns (e: Id)
    requires Inv(b) && caller.run.Some? && CreateTaskEntry(b, Some(caller), input, id).Ok?
    ensures var r := CreateTaskEntry(b, Some(caller), input, id).value; Answers(r.0, caller, input, e, r.1)
  {
    e := CreateTaskEntry(b, Some(caller), input, id).value.1.entry;
    if !(exists e :: Replayed(b, Some(caller), input, e)) {
      assert FlowOk(b.tasks[input.task].flow);
    }
  }

  /** The stored entry answers a repeated request for as long as the run owns the task. */
  lemma {:induction false} AnswersAgain(b: Board, caller: Caller, input: EntryInput, id: Id, e: Id, reply: Reply)
    requires Inv(b) && Answers(b, caller, input, e, reply)
    requires input.task in b.tasks && b.tasks[input.task].flow.assignee == Some(caller.agent) && b.tasks[input.task].flow.run == caller.run
    ensures CreateTaskEntry(b, Some(caller), input, id) == Ok((b, reply))
  {
    assert Replayed(b, Some(caller), input, e);
    forall f | Replayed(b, Some(caller), input, f)
      ensures f == e
    {
      assert SameKey(b.entries[f], b.entries[e].task, b.entries[e].author, b.entries[e].key);
    }
  }

  lemma {:induction false} AdditionKeepsEntry(b: Board, step: Step, e: Id)
    requires e in b.entries && (step.Create? || step.AddEntry?)
    ensures e in After(b, step).entries && After(b, step).entries[e] == b.entries[e]
  {
    hide NextOrder, Replays, FingerprintOf, Charged;
  }

  lemma {:induction false} DeletionKeepsEntry(b: Board, step: Step, e: Id)
    requires e in b.entries && (step.RemoveTask? || step.RemoveBucket?) && b.entries[e].task in After(b, step).tasks
    ensures e in After(b, step).entries && After(b, step).entries[e] == b.entries[e]
  {
    hide Cascade, Sum, StorageOf, Charged;
  }

  lemma {:induction false} StepKeepsEntry(b: Board, step: Step, e: Id)
    requires Inv(b) && e in b.entries && b.entries[e].task in After(b, step).tasks
    ensures e in After(b, step).entries && After(b, step).entries[e] == b.entries[e]
  {
    hide Inv, After;
    if step.Create? || step.AddEntry? {
      AdditionKeepsEntry(b, step, e);
    } else if step.RemoveTask? || step.RemoveBucket? {
      DeletionKeepsEntry(b, step, e);
    } else {
      KeysUntouched(b, step);
    }
  }

  lemma {:induction false} EntryLasts(boards: seq<Board>, steps: seq<Step>, e: Id, from: nat, until: nat)
    requires Runs(boards, steps) && Fresh(boards[0]) && from <= until <= |steps| && e in boards[from].entries
    requires forall k :: from <= k <= until ==> boards[from].entries[e].task in boards[k].tasks
    ensures e in boards[until].entries && boards[until].entries[e] == boards[from].entries[e]
    decreases until - from
  {
    hide After, Inv, Fresh;
    if from == until {
    } else {
      ReachableInv(boards, steps, from);
      assert boards[from + 1] == After(boards[from], steps[from]);
      StepKeepsEntry(boards[from], steps[from], e);
      EntryLasts(boards, steps, e, from + 1, until);
    }
  }

  /** Repeating a managed entry while its run owns the task stores nothing and returns the same entry,
      status and review reason as the first call, whatever claims, requeues and reassignments
      happened in between. */
  lemma {:induction false} ManagedEntryRepeats(boards: seq<Board>, steps: seq<Step>, i: nat, j: nat, caller: Caller, input: EntryInput, id: Id, again: Id)
    requires Runs(boards, steps) && Fresh(boards[0]) && i < j <= |steps|
    requires steps[i] == AddEntry(Some(caller), input, id) && caller.run.Some?
    requires CreateTaskEntry(boards[i], Some(caller), input, id).Ok?
    requires forall k :: i < k <= j ==> input.task in boards[k].tasks
    requires boards[j].tasks[input.task].flow.assignee == Some(caller.agent) && boards[j].tasks[input.task].flow.run == caller.run
    ensures CreateTaskEntry(boards[j], Some(caller), input, again) == Ok((boards[j], CreateTaskEntry(boards[i], Some(caller), input, id).value.1))
  {
    hide CreateTaskEntry, Inv, Fresh;
    ReachableInv(boards, steps, i);
    var e := FirstAnswer(boards[i], caller, input, id);
    assert boards[i + 1] == CreateTaskEntry(boards[i], Some(caller), input, id).value.0 by {
      assert boards[i + 1] == After(boards[i], steps[i]);
    }
    EntryLasts(boards, steps, e, i + 1, j);
    ReachableInv(boards, steps, j);
    AnswersAgain(boards[j], caller, input, again, e, CreateTaskEntry(boards[i], Some(caller), input, id).value.1);
  }
}
