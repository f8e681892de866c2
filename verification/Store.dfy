/** The transactions of server/internal/boards/store.go on one account. Each is one atomic step:
    it computes the account after it commits, or the error with which it rolls back. Row locks,
    the per-key and per-move advisory locks and the account lock make them atomic in the source. */
module Store {
  import opened Basics
  import opened Boards
  import opened Workflow
  import opened Enumeration
  import opened Ordering
  import opened Storage
  import opened SubtaskOrder

  const MAX_TASK_ENTRIES := 200
  const TASK_ENTRY_BYTES := 16 * 1024
  const TASK_IDEMPOTENCY_BYTES := 200

  // ---------------------------------------------------------------- the account

  /** The endpoint a creation went through, as its fingerprint records it. */
  datatype Endpoint = ListEndpoint(id: Id) | InboxEndpoint | ParentEndpoint(id: Id)

  /** The hash of a creation request, modelled as what is hashed. */
  datatype Fingerprint =
    | TopLevelPrint(endpoint: Endpoint, title: Text, description: Text, date: Text, kind: Kind,
                    assignee: Option<Id>, overrideLimit: bool)
    | ParentAwarePrint(endpoint: Endpoint, title: Text, description: Text, date: Text, kind: Kind,
                       assignee: Option<Id>, parent: Option<Id>, overrideLimit: bool)

  /** The hash of the request data, in the released and in the current form. */
  datatype RequestData =
    | ReleasedData(title: Text, description: Text, date: Text, kind: Kind, assignee: Option<Id>, parent: Option<Id>)
    | CurrentData(title: Text, description: Text, date: Text, kind: Kind, status: Option<Status>, priority: Priority,
                  assignee: Option<Id>, parent: Option<Id>)

  datatype KeyRecord = KeyRecord(fingerprint: Fingerprint, data: RequestData, task: Option<Id>)

  /** One account. `buckets` maps each list to whether it is the inbox; `agents` are the ones not archived. */
  datatype Board = Board(
    buckets: map<Id, bool>,
    agents: set<Id>,
    tasks: map<Id, Task>,
    entries: map<Id, Entry>,
    keys: map<Text, KeyRecord>,
    usage: Usage,
    limits: Limits)

  /** An agent credential, with the managed run it speaks for. */
  datatype Caller = Caller(agent: Id, run: Option<Id>)

  // ---------------------------------------------------------------- creation

  datatype Draft = Draft(
    title: Text, description: Text, date: Parsed<Text>, kind: Parsed<Kind>, status: Option<Parsed<Status>>,
    priority: Parsed<Priority>, assignee: Option<Id>, parent: Option<Id>, key: Option<Text>, overrideLimit: bool)

  datatype Prepared = Prepared(
    endpoint: Endpoint, title: Text, description: Text, date: Text, kind: Kind, status: Option<Status>,
    priority: Priority, assignee: Option<Id>, parent: Option<Id>, key: Option<Text>, overrideLimit: bool)

  function PrepareTaskCreate(draft: Draft, endpoint: Endpoint): Result<Prepared, Error> {
    if draft.title == [] || draft.date.Malformed? || draft.kind != Parsed(Action) then Err(InvalidData)
    else if draft.status == Some(Malformed) || draft.priority.Malformed? then Err(InvalidData)
    else if draft.key.Some? && |draft.key.value| > TASK_IDEMPOTENCY_BYTES then Err(InvalidData)
    else Ok(Prepared(endpoint, draft.title, draft.description, draft.date.value, Action,
                     if draft.status.Some? then Some(draft.status.value.value) else None,
                     draft.priority.value, draft.assignee, draft.parent, draft.key, draft.overrideLimit))
  }

  function ParentAware(p: Prepared, endpoint: Endpoint): Fingerprint {
    ParentAwarePrint(endpoint, p.title, p.description, p.date, p.kind, p.assignee, p.parent, p.overrideLimit)
  }

  function FingerprintOf(p: Prepared): Fingerprint {
    if p.parent.None? then TopLevelPrint(p.endpoint, p.title, p.description, p.date, p.kind, p.assignee, p.overrideLimit)
    else ParentAware(p, p.endpoint)
  }

  /** Whether a stored fingerprint is another spelling of this request's. */
  predicate Compatible(p: Prepared, buckets: set<Id>, stored: Fingerprint) {
    || (p.parent.None? && stored == ParentAware(p, p.endpoint))
    || (p.endpoint.ParentEndpoint? && stored.ParentAwarePrint? && stored.endpoint.ListEndpoint?
        && stored.endpoint.id in buckets && stored == ParentAware(p, stored.endpoint))
  }

  function DataOf(p: Prepared): RequestData {
    CurrentData(p.title, p.description, p.date, p.kind, p.status, p.priority, p.assignee, p.parent)
  }

  function ReleasedDataOf(p: Prepared): RequestData {
    ReleasedData(p.title, p.description, p.date, p.kind, p.assignee, p.parent)
  }

  /** The request names a status or a priority. */
  predicate Strict(p: Prepared) {
    p.status.Some? || p.priority != NoPriority
  }

  /** Whether a retry under a used key is taken for the first request. */
  predicate Replays(p: Prepared, record: KeyRecord, buckets: set<Id>) {
    var dataMatches := record.data == DataOf(p) || (!Strict(p) && record.data == ReleasedDataOf(p));
    var printMatches := record.fingerprint == FingerprintOf(p) || Compatible(p, buckets, record.fingerprint);
    || (printMatches && (Strict(p) ==> dataMatches))
    || (p.parent.Some? && record.task.Some? && dataMatches)
  }

  /** One past the largest number in the list. */
  ghost function NextOrder(tasks: map<Id, Task>, bucket: Id): int {
    var order := Ordered(tasks, InBucket(tasks, bucket));
    OrderedElements(tasks, InBucket(tasks, bucket));
    if order == [] then 0 else assert order[|order| - 1] in order; tasks[order[|order| - 1]].place.sortOrder + 1
  }

  ghost function InsertTask(b: Board, p: Prepared, bucket: Id, id: Id, now: int): Result<(Board, Id), Error> {
    if p.parent.Some? && p.parent.value !in b.tasks then Err(NotFound)
    else if p.parent.Some? && b.tasks[p.parent.value].place.parent.Some? then Err(InvalidData)
    else
      var home := if p.parent.Some? then b.tasks[p.parent.value].place.bucket else bucket;
      if home !in b.buckets then Err(NotFound)
      else
        var usage :- Charged(b.limits, b.usage, 1, |p.title| + |p.description|);
        var assignee :- ActiveAssignee(b.agents, p.assignee);
        if id in b.tasks then Err(Constraint)
        else
          var task := Task(Content(p.title, p.description, p.date, p.kind, p.priority),
                           Place(home, p.parent, NextOrder(b.tasks, home), now),
                           InsertedFlow(p.status, assignee));
          Ok((b.(tasks := b.tasks[id := task],
                 keys := if p.key.Some? then b.keys[p.key.value := KeyRecord(FingerprintOf(p), DataOf(p), Some(id))] else b.keys,
                 usage := usage), id))
  }

  /** Creates a task, or answers a retry with the task of the first request. `inbox` is the list the
      inbox endpoint files into. */
  ghost function CreateTask(b: Board, draft: Draft, endpoint: Endpoint, inbox: Id, id: Id, now: int): Result<(Board, Id), Error> {
    if endpoint.ParentEndpoint? && endpoint.id !in b.tasks then Err(NotFound)
    else if endpoint.ParentEndpoint? && b.tasks[endpoint.id].place.parent.Some? then Err(InvalidData)
    else
      var p :- PrepareTaskCreate(if endpoint.ParentEndpoint? then draft.(parent := Some(endpoint.id)) else draft, endpoint);
      if p.key.Some? && p.key.value in b.keys then
        var record := b.keys[p.key.value];
        if !Replays(p, record, b.buckets.Keys) then Err(IdempotencyKey)
        else if record.task.None? then Err(IdempotencyGone)
        else Ok((b, record.task.value))
      else InsertTask(b, p, if endpoint.ListEndpoint? then endpoint.id else inbox, id, now)
  }

  // ---------------------------------------------------------------- update

  /** A person, through the general or the status endpoint, or an agent. */
  datatype Actor = Person(allowWorking: bool) | AgentActor(caller: Caller)

  datatype TaskEdit = TaskEdit(
    title: Option<Text>, description: Option<Text>, date: Option<Parsed<Text>>, kind: Option<Parsed<Kind>>,
    bucket: Option<Id>, flow: FlowEdit, priority: Option<Parsed<Priority>>, sortOrder: Option<int>)

  /** What an agent may not do to a task: touch one that another run owns, or the status of one its
      own run owns. */
  function RunError(actor: Actor, flow: Flow, edit: TaskEdit): Option<Error> {
    if actor.Person? then None
    else if flow.run != actor.caller.run then Some(ManagedRunMismatch)
    else if flow.run.Some? && (edit.flow.status.Some? || edit.flow.done.Some?) then Some(ManagedRunStatusLocked)
    else None
  }

  function EditedContent(content: Content, edit: TaskEdit): Result<Content, Error> {
    if edit.date == Some(Malformed) then Err(InvalidData)
    else if edit.kind.Some? && edit.kind.value != Parsed(Action) then Err(InvalidData)
    else if edit.priority == Some(Malformed) then Err(InvalidData)
    else Ok(Content(
      if edit.title.Some? then edit.title.value else content.title,
      if edit.description.Some? then edit.description.value else content.description,
      if edit.date.Some? then edit.date.value.value else content.date,
      if edit.kind.Some? then Action else content.kind,
      if edit.priority.Some? then edit.priority.value.value else content.priority))
  }

  /** The rows after the list change an update asks for, if any. */
  ghost function ListChange(b: Board, id: Id, edit: TaskEdit): Result<map<Id, Task>, Error>
    requires id in b.tasks
  {
    var place := b.tasks[id].place;
    if edit.bucket.None? || edit.bucket.value == place.bucket then Ok(b.tasks)
    else if edit.sortOrder.Some? then Err(InvalidData)
    else if place.parent.Some? && place.parent.value !in b.tasks then Err(NotFound)
    else if place.parent.Some? && b.tasks[place.parent.value].place.bucket != edit.bucket.value then Err(InvalidData)
    else if edit.bucket.value !in b.buckets then Err(NotFound)
    else Ok(MovedRows(b.tasks, id, edit.bucket.value, 0))
  }

  ghost function UpdateTask(b: Board, actor: Actor, id: Id, edit: TaskEdit): Result<Board, Error> {
    if actor.AgentActor? && (edit.bucket.Some? || edit.sortOrder.Some? || edit.flow.assignee.Some?) then Err(AgentTaskScope)
    else if id !in b.tasks then Err(NotFound)
    else
      var task := b.tasks[id];
      if actor.AgentActor? && task.flow.assignee != Some(actor.caller.agent) then Err(NotFound)
      else if RunError(actor, task.flow, edit).Some? then Err(RunError(actor, task.flow, edit).value)
      else
        var content :- EditedContent(task.content, edit);
        var rows :- ListChange(b, id, edit);
        var flow :- UpdatedFlow(task.flow, content.kind, edit.flow, actor.Person? && actor.allowWorking, b.agents);
        if content.title == [] then Err(InvalidData)
        else
          var grown := |content.title| + |content.description| - TaskBytes(task);
          var usage :- if edit.title.Some? || edit.description.Some? || edit.bucket.Some?
                       then Charged(b.limits, b.usage, 0, grown) else Ok(b.usage);
          var place := if id in rows then rows[id].place else task.place;
          var numbered := if edit.sortOrder.Some? then place.(sortOrder := edit.sortOrder.value) else place;
          Ok(b.(tasks := rows[id := Task(content, numbered, flow)], usage := usage))
  }

  // ---------------------------------------------------------------- move

  ghost function MoveTask(b: Board, id: Id, bucket: Option<Id>, target: Target, status: Option<Parsed<Status>>): Result<Board, Error> {
    if bucket.None? || !TargetOk(target) || status == Some(Malformed) then Err(InvalidData)
    else if id !in b.tasks then Err(NotFound)
    else
      var task := b.tasks[id];
      var flow :- if status.Some? then MovedFlow(task.flow, task.content.kind, status.value, b.agents) else Ok(task.flow);
      if task.place.parent.Some? && task.place.parent.value !in b.tasks then Err(NotFound)
      else if task.place.parent.Some? &&
        (task.place.bucket == b.tasks[task.place.parent.value].place.bucket ||
         b.tasks[task.place.parent.value].place.bucket != bucket.value) then Err(InvalidData)
      else if bucket.value !in b.buckets then Err(NotFound)
      else
        var position :- MovePosition(b.tasks, id, bucket.value, target);
        if position > |OrderWithout(b.tasks, bucket.value, id)| then Err(InvalidData)
        else
          var rows := MovedRows(b.tasks, id, bucket.value, position);
          var place := if id in rows then rows[id].place else task.place;
          Ok(b.(tasks := rows[id := Task(task.content, place, flow)]))
  }

  // ---------------------------------------------------------------- claim

  /** A claim by a person, by an agent, or by an agent's managed run. */
  function ClaimTask(b: Board, caller: Option<Caller>, id: Id): Result<Board, Error> {
    if id !in b.tasks then Err(TaskUnavailable)
    else
      var task := b.tasks[id];
      var agent := if caller.Some? then Some(caller.value.agent) else None;
      var run := if caller.Some? then caller.value.run else None;
      var flow :- ClaimedFlow(task.flow, task.content.kind, agent, run);
      Ok(b.(tasks := b.tasks[id := task.(flow := flow)]))
  }

  // ---------------------------------------------------------------- entries

  datatype EntryInput = EntryInput(task: Id, kind: Parsed<EntryKind>, body: Text, key: Option<Text>)

  /** What a caller learns: the entry and the task's status and review reason as of that entry. */
  datatype Reply = Reply(entry: Id, status: Status, reason: Reason)

  function AuthorOf(caller: Option<Caller>): Author {
    if caller.Some? then Agent(caller.value.agent) else Human
  }

  function RunOf(caller: Option<Caller>): Option<Id> {
    if caller.Some? then caller.value.run else None
  }

  /** The caller may speak on this task as it stands: an agent must be its assignee, and its run
      must be the one that owns the task, or neither. */
  predicate Speaks(flow: Flow, caller: Option<Caller>) {
    caller.Some? ==> flow.assignee == Some(caller.value.agent) && flow.run == caller.value.run
  }

  /** The entry an earlier request of this author stored under this key. */
  predicate SameKey(entry: Entry, task: Id, author: Author, key: Option<Text>) {
    key.Some? && entry.task == task && entry.author == author && entry.key == key
  }

  ghost predicate Replayed(b: Board, caller: Option<Caller>, input: EntryInput, e: Id) {
    && e in b.entries && SameKey(b.entries[e], input.task, AuthorOf(caller), input.key)
    && input.task in b.tasks && Speaks(b.tasks[input.task].flow, caller)
  }

  /** A replayed managed entry answers as it did the first time. */
  function ReplayReply(e: Id, entry: Entry, flow: Flow): Reply {
    if entry.run.None? then Reply(e, flow.status, flow.reason)
    else if entry.kind == Output then Reply(e, NeedsReview, OutputReason)
    else Reply(e, Working, NoReason)
  }

  predicate EntryInputOk(caller: Option<Caller>, input: EntryInput) {
    && input.body != [] && input.kind.Parsed? && |input.body| <= TASK_ENTRY_BYTES
    && (input.key.Some? ==> |input.key.value| <= TASK_IDEMPOTENCY_BYTES)
    && (RunOf(caller).Some? ==> input.key.Some?)
  }

  function SpeakError(flow: Flow, caller: Option<Caller>, agents: set<Id>): Option<Error> {
    if caller.None? then None
    else if flow.assignee != Some(caller.value.agent) then Some(NotFound)
    else if flow.run != caller.value.run then Some(ManagedRunMismatch)
    else if flow.run.Some? && flow.status != Working then Some(TaskUnavailable)
    else if caller.value.agent !in agents then Some(NotFound)
    else None
  }

  ghost function InsertEntry(b: Board, caller: Option<Caller>, input: EntryInput, id: Id): Result<(Board, Reply), Error>
    requires EntryInputOk(caller, input)
  {
    if input.task !in b.tasks then Err(NotFound)
    else
      var task := b.tasks[input.task];
      if SpeakError(task.flow, caller, b.agents).Some? then Err(SpeakError(task.flow, caller, b.agents).value)
      else if |EntriesOf(b.entries, {input.task}).Keys| >= MAX_TASK_ENTRIES then Err(InvalidData)
      else if id in b.entries then Err(Constraint)
      else
        var entry := Entry(input.task, input.kind.value, input.body, AuthorOf(caller), input.key, RunOf(caller));
        var usage :- Charged(b.limits, b.usage, 0, |input.body|);
        if entry.kind == Output && entry.run.Some? && !(task.flow.status == Working && task.flow.run == entry.run) then Err(ManagedRunMismatch)
        else
          var flow := if entry.kind == Output then task.flow.(status := NeedsReview, reason := OutputReason) else task.flow;
          Ok((b.(entries := b.entries[id := entry], tasks := b.tasks[input.task := task.(flow := flow)], usage := usage),
              Reply(id, flow.status, flow.reason)))
  }

  /** Adds a comment or an output, or answers a retry with the first entry. */
  ghost function CreateTaskEntry(b: Board, caller: Option<Caller>, input: EntryInput, id: Id): Result<(Board, Reply), Error> {
    if !EntryInputOk(caller, input) then Err(InvalidData)
    else if exists e :: Replayed(b, caller, input, e) then
      var e :| Replayed(b, caller, input, e);
      var entry := b.entries[e];
      if entry.kind != input.kind.value || entry.body != input.body || entry.run != RunOf(caller) then Err(IdempotencyKey)
      else Ok((b, ReplayReply(e, entry, b.tasks[input.task].flow)))
    else InsertEntry(b, caller, input, id)
  }

  // ---------------------------------------------------------------- deletion

  /** What the foreign keys take along: the tasks below the given ones, level by level. */
  ghost function Cascade(tasks: map<Id, Task>, ids: set<Id>): set<Id>
    requires ids <= tasks.Keys
    decreases |tasks.Keys| - |ids|
  {
    var next := ids + set id | id in tasks && tasks[id].place.parent.Some? && tasks[id].place.parent.value in ids;
    if next == ids then ids
    else
      SubsetCardinality(ids, next);
      SubsetCardinality(next, tasks.Keys);
      Cascade(tasks, next)
  }

  /** The rows without some tasks. Entries go with their task; a key keeps its record but forgets the task. */
  ghost function Erase(b: Board, ids: set<Id>, usage: Usage): Board {
    b.(tasks := b.tasks - ids,
       entries := b.entries - EntriesOf(b.entries, ids).Keys,
       keys := map key | key in b.keys ::
         if b.keys[key].task.Some? && b.keys[key].task.value in ids then b.keys[key].(task := None) else b.keys[key],
       usage := usage)
  }

  /** Deletes a task. The counters are charged for the task and its direct subtasks; the database
      deletes everything below it. */
  ghost function DeleteTask(b: Board, id: Id): Result<Board, Error> {
    if id !in b.tasks then Err(NotFound)
    else
      var counted := {id} + ChildrenOf(b.tasks, id);
      var usage :- Charged(b.limits, b.usage, -|counted|, -Sum(StorageOf(b.tasks, b.entries, counted)));
      Ok(Erase(b, Cascade(b.tasks, {id}), usage))
  }

  ghost function DeleteBucket(b: Board, bucket: Id): Result<Board, Error> {
    if bucket !in b.buckets then Err(NotFound)
    else if b.buckets[bucket] && !(exists other :: other in b.buckets && other != bucket && b.buckets[other]) then Err(InvalidData)
    else
      var doomed := Cascade(b.tasks, InBucket(b.tasks, bucket));
      var usage :- Charged(b.limits, b.usage, -|doomed|, -Sum(StorageOf(b.tasks, b.entries, doomed)));
      Ok(Erase(b, doomed, usage).(buckets := b.buckets - {bucket}))
  }

  // ---------------------------------------------------------------- reordering

  predicate Ascends(a: Id, b: Id) {
    a < b
  }

  /** One order in which the touched lists may be written; every other order gives the same rows. */
  ghost function Touched(tasks: map<Id, Task>, parent: Id): seq<Id>
    requires parent in tasks
  {
    Listing(Ascends, TouchedLists(tasks, parent))
  }

  ghost function ReorderSubtasks(b: Board, parent: Id, ids: seq<Id>): Result<Board, Error> {
    if parent !in b.tasks then Err(NotFound)
    else if b.tasks[parent].place.parent.Some? then Err(InvalidData)
    else if !(Distinct(ids) && Elements(ids) == ChildrenOf(b.tasks, parent)) then Err(InvalidData)
    else Ok(b.(tasks := ReorderedRows(b.tasks, parent, ids, Touched(b.tasks, parent))))
  }

  /** The updates of a plain reorder, one after the other; a task named twice keeps its last number. */
  function NumberedFrom(tasks: map<Id, Task>, ids: seq<Id>, from: nat): map<Id, Task>
    requires from <= |ids|
    decreases |ids| - from
  {
    if from == |ids| || ids[from] !in tasks then tasks
    else NumberedFrom(tasks[ids[from] := Renumber(tasks[ids[from]], from)], ids, from + 1)
  }

  method NumberTasks(tasks: map<Id, Task>, ids: seq<Id>) returns (written: map<Id, Task>)
    requires forall i :: 0 <= i < |ids| ==> ids[i] in tasks
    ensures written == NumberedFrom(tasks, ids, 0)
  {
    written := tasks;
    for i := 0 to |ids|
      invariant written.Keys == tasks.Keys
      invariant NumberedFrom(written, ids, i) == NumberedFrom(tasks, ids, 0)
    {
      written := written[ids[i] := Renumber(written[ids[i]], i)];
    }
  }

  function ReorderTasks(b: Board, bucket: Id, ids: seq<Id>): Result<Board, Error> {
    if bucket !in b.buckets then Err(NotFound)
    else if exists i :: 0 <= i < |ids| && !(ids[i] in b.tasks && b.tasks[ids[i]].place.bucket == bucket) then Err(NotFound)
    else Ok(b.(tasks := NumberedFrom(b.tasks, ids, 0)))
  }

  // ---------------------------------------------------------------- lists

  /** A new list; naming it the inbox takes the marker from the others. */
  function CreateBucket(b: Board, id: Id, inbox: bool): Result<Board, Error> {
    if id in b.buckets then Err(Constraint)
    else Ok(b.(buckets := (if inbox then map k | k in b.buckets :: false else b.buckets)[id := inbox]))
  }

  /** An edit of a list. `inbox` is the marker it names; `valid` says that its other fields are. */
  function UpdateBucket(b: Board, id: Id, inbox: Option<bool>, valid: bool): Result<Board, Error> {
    if id !in b.buckets then Err(NotFound)
    else if !valid then Err(InvalidData)
    else
      var was := b.buckets[id];
      var now := if inbox.Some? then inbox.value else was;
      if was && !now && !(exists other :: other in b.buckets && other != id && b.buckets[other]) then Err(InvalidData)
      else Ok(b.(buckets := (if !was && now then map k | k in b.buckets :: false else b.buckets)[id := now]))
  }

  // ---------------------------------------------------------------- runs of the server

  datatype Step =
    | Create(draft: Draft, endpoint: Endpoint, inbox: Id, task: Id, now: int)
    | Update(actor: Actor, task: Id, edit: TaskEdit)
    | Move(task: Id, bucket: Option<Id>, target: Target, status: Option<Parsed<Status>>)
    | Claim(caller: Option<Caller>, task: Id)
    | AddEntry(caller: Option<Caller>, input: EntryInput, entry: Id)
    | RemoveTask(task: Id)
    | RemoveBucket(list: Id)
    | OrderSubtasks(parent: Id, ids: seq<Id>)
    | OrderTasks(list: Id, ids: seq<Id>)
    | AddBucket(list: Id, isInbox: bool)
    | EditBucket(list: Id, marker: Option<bool>, valid: bool)
    | SetAgents(agents: set<Id>)
    | SetLimits(limits: Limits)

  ghost function Apply(b: Board, step: Step): Result<Board, Error> {
    match step
    case Create(draft, endpoint, inbox, id, now) => CreateTask(b, draft, endpoint, inbox, id, now).Map((r: (Board, Id)) => r.0)
    case Update(actor, id, edit) => UpdateTask(b, actor, id, edit)
    case Move(id, bucket, target, status) => MoveTask(b, id, bucket, target, status)
    case Claim(caller, id) => ClaimTask(b, caller, id)
    case AddEntry(caller, input, id) => CreateTaskEntry(b, caller, input, id).Map((r: (Board, Reply)) => r.0)
    case RemoveTask(id) => DeleteTask(b, id)
    case RemoveBucket(bucket) => DeleteBucket(b, bucket)
    case OrderSubtasks(parent, ids) => ReorderSubtasks(b, parent, ids)
    case OrderTasks(bucket, ids) => ReorderTasks(b, bucket, ids)
    case AddBucket(id, inbox) => CreateBucket(b, id, inbox)
    case EditBucket(id, inbox, valid) => UpdateBucket(b, id, inbox, valid)
    case SetAgents(agents) => Ok(b.(agents := agents))
    case SetLimits(limits) => Ok(b.(limits := limits))
  }

  /** A step that fails rolls back. */
  ghost function After(b: Board, step: Step): Board {
    var r := Apply(b, step);
    if r.Ok? then r.value else b
  }

  /** A new account has lists and agents, and nothing stored. */
  predicate Fresh(b: Board) {
    b.tasks == map[] && b.entries == map[] && b.keys == map[] && b.usage == Usage(0, 0)
  }

  /** A run of the server: `boards[i + 1]` is what `steps[i]` makes of `boards[i]`. */
  ghost predicate Runs(boards: seq<Board>, steps: seq<Step>) {
    && |boards| == |steps| + 1
    && forall i :: 0 <= i < |steps| ==> boards[i + 1] == After(boards[i], steps[i])
  }
}
