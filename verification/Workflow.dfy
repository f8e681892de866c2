/** Status, assignment and run ownership of one task, as each transaction of
    server/internal/boards/store.go computes them. */
module Workflow {
  import opened Basics
  import opened Boards

  /** What every transaction keeps about a task's workflow. */
  predicate FlowOk(flow: Flow) {
    && (flow.status == Queued ==> flow.run.None?)
    && (flow.assignee.Some? ==> flow.status != New)
    && (flow.run.Some? ==> flow.assignee.Some?)
    && (flow.reason != NoReason ==> flow.status == NeedsReview)
  }

  /** The status a request asks for, if the task may take it. */
  function RequestedStatus(kind: Kind, status: Parsed<Status>, allowWorking: bool): Result<Status, Error> {
    if status.Malformed? then Err(InvalidData)
    else if status.value == Working && !allowWorking then Err(InvalidData)
    else if kind != Action then Err(InvalidData)
    else Ok(status.value)
  }

  /** The parts of an update that concern the workflow. `done` is the flag released clients send. */
  datatype FlowEdit = FlowEdit(status: Option<Parsed<Status>>, done: Option<bool>, assignee: Option<Option<Id>>)

  function ActiveAssignee(agents: set<Id>, assignee: Option<Id>): Result<Option<Id>, Error> {
    if assignee.Some? && assignee.value !in agents then Err(InvalidData) else Ok(assignee)
  }

  function LegacyDone(status: Status, assignee: Option<Id>, done: bool): Status {
    if done then Done
    else if status != Done then status
    else if assignee.Some? then Queued
    else New
  }

  /** The status an assignment change and an assignment leave behind. */
  function SettledStatus(status: Status, before: Option<Id>, after: Option<Id>): Status {
    var reassigned := before != after;
    var one := if reassigned && after.Some? && (status == Working || status == NeedsReview) then Queued else status;
    var two := if reassigned && after.None? && one == Queued then New else one;
    if after.Some? && two == New then Queued else two
  }

  function UpdatedFlow(flow: Flow, kind: Kind, edit: FlowEdit, allowWorking: bool, agents: set<Id>): Result<Flow, Error> {
    var asked :- if edit.status.Some? then RequestedStatus(kind, edit.status.value, allowWorking) else Ok(flow.status);
    var legacy := if edit.done.Some? then LegacyDone(asked, flow.assignee, edit.done.value) else asked;
    var wanted :- if legacy != asked then RequestedStatus(kind, Parsed(legacy), allowWorking) else Ok(asked);
    var assignee :- if edit.assignee.Some? then ActiveAssignee(agents, edit.assignee.value) else Ok(flow.assignee);
    var status := SettledStatus(wanted, flow.assignee, assignee);
    if assignee.Some? && (status == New || status == Queued || status == Working) && assignee.value !in agents then Err(InvalidData)
    else Ok(Flow(
      status,
      assignee,
      if status == Queued || assignee != flow.assignee then None else flow.run,
      if status != NeedsReview || flow.status != NeedsReview then NoReason else flow.reason))
  }

  /** A move that also names a status. */
  function MovedFlow(flow: Flow, kind: Kind, asked: Parsed<Status>, agents: set<Id>): Result<Flow, Error> {
    var wanted :- RequestedStatus(kind, asked, true);
    var status := if flow.assignee.Some? && wanted == New then Queued else wanted;
    if flow.assignee.Some? && (status == Queued || status == Working) && flow.assignee.value !in agents then Err(InvalidData)
    else Ok(flow.(
      status := status,
      run := if status == Queued then None else flow.run,
      reason := if status == NeedsReview && flow.status == NeedsReview then flow.reason else NoReason))
  }

  /** A claim by a person, by an agent, or by an agent's managed run. */
  function ClaimedFlow(flow: Flow, kind: Kind, agent: Option<Id>, run: Option<Id>): Result<Flow, Error> {
    if kind == Action && flow.status == Queued && (agent.Some? ==> flow.assignee == agent)
    then Ok(flow.(status := Working, run := run, reason := NoReason))
    else Err(TaskUnavailable)
  }

  function InsertedFlow(status: Option<Status>, assignee: Option<Id>): Flow {
    Flow(if assignee.Some? then Queued else if status.Some? then status.value else New, assignee, None, NoReason)
  }

  lemma UpdatedFlowOk(flow: Flow, kind: Kind, edit: FlowEdit, allowWorking: bool, agents: set<Id>)
    requires FlowOk(flow)
    ensures var r := UpdatedFlow(flow, kind, edit, allowWorking, agents); r.Ok? ==> FlowOk(r.value)
  {
  }

  lemma MovedFlowOk(flow: Flow, kind: Kind, asked: Parsed<Status>, agents: set<Id>)
    requires FlowOk(flow)
    ensures var r := MovedFlow(flow, kind, asked, agents); r.Ok? ==> FlowOk(r.value)
  {
  }

  /** An edit that names no status, done flag or assignee leaves the workflow alone. */
  lemma PlainEditKeepsFlow(flow: Flow, kind: Kind, edit: FlowEdit, allowWorking: bool, agents: set<Id>)
    requires FlowOk(flow) && edit == FlowEdit(None, None, None)
    ensures var r := UpdatedFlow(flow, kind, edit, allowWorking, agents); r.Ok? ==> r.value == flow
  {
  }

  /** What an accepted update decides. The assignee is the one named; ownership survives exactly if the
      task neither goes back to the queue nor changes hands; a review reason survives only a stay in
      review. */
  lemma UpdateDecides(flow: Flow, kind: Kind, edit: FlowEdit, allowWorking: bool, agents: set<Id>)
    requires FlowOk(flow) && UpdatedFlow(flow, kind, edit, allowWorking, agents).Ok?
    ensures var r := UpdatedFlow(flow, kind, edit, allowWorking, agents).value;
      && r.assignee == (if edit.assignee.Some? then edit.assignee.value else flow.assignee)
      && (r.run == flow.run <==> flow.run.None? || (r.status != Queued && r.assignee == flow.assignee))
      && (r.run == None || r.run == flow.run)
      && (r.reason == flow.reason <==> flow.reason == NoReason || (flow.status == NeedsReview && r.status == NeedsReview))
      && (r.reason == NoReason || r.reason == flow.reason)
      && (r.assignee.Some? && (r.status == Queued || r.status == Working) ==> r.assignee.value in agents)
      && (r.status != flow.status && (edit.status.Some? || edit.done.Some?) && r.assignee == flow.assignee ==> kind == Action)
  {
  }

  /** The status an update asks for. The flag of released clients completes a task, or reopens a
      completed one where its assignment puts it. */
  function AskedStatus(flow: Flow, edit: FlowEdit): Parsed<Status> {
    var named := if edit.status.Some? then edit.status.value else Parsed(flow.status);
    if edit.done == Some(true) then Parsed(Done)
    else if edit.done == Some(false) && named == Parsed(Done) then Parsed(if flow.assignee.Some? then Queued else New)
    else named
  }

  /** The status an accepted update leaves: what was asked for, except that an assigned task is never
      new, that giving a task to another agent puts work back into the queue, and that a task nobody
      has is not queued because of it. */
  lemma UpdateSettles(flow: Flow, kind: Kind, edit: FlowEdit, allowWorking: bool, agents: set<Id>)
    requires FlowOk(flow) && UpdatedFlow(flow, kind, edit, allowWorking, agents).Ok?
    ensures AskedStatus(flow, edit).Parsed?
    ensures var r := UpdatedFlow(flow, kind, edit, allowWorking, agents).value;
      var asked := AskedStatus(flow, edit).value;
      var given := r.assignee.Some? && r.assignee != flow.assignee;
      && (asked == Done ==> r.status == Done)
      && (asked == Working || asked == NeedsReview ==> r.status == if given then Queued else asked)
      && (asked == New ==> r.status == if r.assignee.Some? then Queued else New)
      && (asked == Queued ==> r.status == if r.assignee.None? && flow.assignee.Some? then New else Queued)
  {
  }

  /** A move that names a status: an assigned task goes to the queue instead of to new, and only going
      to the queue gives ownership up. */
  lemma MoveDecides(flow: Flow, kind: Kind, asked: Parsed<Status>, agents: set<Id>)
    requires MovedFlow(flow, kind, asked, agents).Ok?
    ensures var r := MovedFlow(flow, kind, asked, agents).value;
      && kind == Action && asked.Parsed? && r.assignee == flow.assignee
      && r.status == (if asked.value == New && flow.assignee.Some? then Queued else asked.value)
      && (r.run == flow.run <==> flow.run.None? || r.status != Queued)
      && (r.run == None || r.run == flow.run)
      && (r.reason == flow.reason <==> flow.reason == NoReason || (flow.status == NeedsReview && r.status == NeedsReview))
  {
  }
}
