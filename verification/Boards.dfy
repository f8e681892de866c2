/** The rows of one account: server/internal/boards/types.go and the tables behind it.

    Identifiers are naturals, ordered as the database orders them. Text is a byte sequence, so its
    length is the byte length the quota counts. Requests arrive trimmed, and a field that does not
    parse is `Malformed`. */
module Boards {
  import opened Basics

  type Id = nat

  newtype Byte = b: int | 0 <= b < 256

  type Text = seq<Byte>

  datatype Parsed<+T> = Parsed(value: T) | Malformed

  datatype Status = New | Queued | Working | NeedsReview | Done
  datatype Kind = Action | OtherKind
  datatype Priority = NoPriority | P0 | P1 | P2 | P3
  datatype Reason = NoReason | OutputReason

  /** Where a task stands in the workflow. `run` is the managed run that owns it. */
  datatype Flow = Flow(status: Status, assignee: Option<Id>, run: Option<Id>, reason: Reason)

  /** Where a task stands in its list. */
  datatype Place = Place(bucket: Id, parent: Option<Id>, sortOrder: int, createdAt: int)

  datatype Content = Content(title: Text, description: Text, date: Text, kind: Kind, priority: Priority)

  datatype Task = Task(content: Content, place: Place, flow: Flow)

  datatype Author = Human | Agent(id: Id)
  datatype EntryKind = Comment | Output

  /** A conversation entry. The stored request hash is the pair of kind and body it is computed from. */
  datatype Entry = Entry(task: Id, kind: EntryKind, body: Text, author: Author, key: Option<Text>, run: Option<Id>)

  datatype Usage = Usage(tasks: int, bytes: int)

  datatype Error =
    | NotFound | InvalidData | TaskUnavailable | IdempotencyKey | IdempotencyGone
    | AgentTaskScope | ManagedRunMismatch | ManagedRunStatusLocked
    | StoredTaskLimit | StoredContentLimit | NegativeCounters | Constraint

  function TaskBytes(task: Task): nat {
    |task.content.title| + |task.content.description|
  }

  function ChildrenOf(tasks: map<Id, Task>, parent: Id): set<Id> {
    set id | id in tasks && tasks[id].place.parent == Some(parent)
  }

  function InBucket(tasks: map<Id, Task>, bucket: Id): set<Id> {
    set id | id in tasks && tasks[id].place.bucket == bucket
  }

  /** Nesting is one level deep and a subtask shares its parent's list. */
  ghost predicate Nested(tasks: map<Id, Task>) {
    forall id :: id in tasks && tasks[id].place.parent.Some? ==>
      && tasks[id].place.parent.value in tasks
      && tasks[tasks[id].place.parent.value].place.parent.None?
      && tasks[tasks[id].place.parent.value].place.bucket == tasks[id].place.bucket
  }
}
