# A verified model of slate.do

slate.do is a control plane for work shared between people and coding agents. A server keeps the
tasks of an account: lists, subtasks, assignments, conversation entries and the managed run that owns
a task. A command-line watcher launches an agent's executor in a git worktree of its own, watches the
server to learn what became of the run, and decides which worktrees to throw away. This project models
the parts of both whose correctness is hard to see, and proves what they promise.

The modules, from the ground up:

- `Basics`, `Enumeration`: results, sets and sums over maps, and the sorted listing of a set.
- `Boards`, `Workflow`, `Ordering`, `SubtaskOrder`, `Storage`: the rows of an account, how a
  transaction computes a task's status, assignee, run and review reason, how list order is rewritten,
  and what the storage counters stand for.
- `Store`: every transaction as one atomic step from account to account, or an error with which it
  rolls back, and runs of the server as sequences of such steps. `StoreInvariants` proves what every
  step keeps; `StoreResults` and `ManagedRuns` draw the consequences over whole runs; `Decisions` says
  which requests are accepted, which are refused for what, and what an accepted one stores.
- `Supervision`, `Watcher`, `WatchLoop`, `RetentionCap`: supervision of one run, its composition with
  the server, the attempt and the loop around it under arbitrary faults, and the cap on worktrees
  shared by concurrent watchers.
- `RateLimit`, `LimiterRuns`, `Authentication`, `Charging`, `Cleanup`, `Paging`, `Templates`: the
  sliding-window limiter against a reference, how a request spends its slots, the budgeted cleanup, keyset pagination, and the browser's resume loop
  over the server's idempotent creation.

How the system is represented:

- One account is modelled at a time. Identifiers are naturals in the database's order; text is a byte
  sequence, already trimmed; a field that does not parse is `Malformed`. Hashes (fingerprints, request
  data, key hashes) are the values that are hashed, so they are injective.
- A transaction is atomic: row locks, the per-key and per-move advisory locks and the account lock make
  it so. `CreateSubtask` reads the parent and the lists before its transaction; the model takes all of
  it as one step.
- Rows live in the database, so transactions are functions on the account; the loops and slices of the
  source are methods with loops and arrays, proved equal to the functions the transactions use.
- Times are integers. The limiter's clock does not go back from one committed transaction to the next,
  and its limits are fixed and at least one. What the database, the network, git, the file system and
  processes answer is input.
- New task, entry and run identifiers are parameters. A creation under an identifier in use fails, and
  where a result depends on identifiers never being used again its hypotheses say so.

Where code and comment disagree the model follows the code: the message at
`cli/cmd/slate/watch.go:441` says that watching stops, but the error is one the loop recovers from. The
branch at `cli/cmd/slate/watch.go:648-652` is never taken, because an inspection made after the exit was
seen always decides. And a worktree can be left without a record while the loop goes on: when creating
it fails and so does cleaning up (`cli/cmd/slate/gitrepo.go:141-156`); `WatchLoop.OrphansExactly` says
exactly when.

## Model

| member | source | states |
|---|---|---|
| `Workflow.UpdatedFlowOk` | server/internal/boards/store.go:1388-1441 | Whatever an update asks for, the workflow it leaves satisfies the invariant: a queued task has no run, an assigned task is not new, a run implies an assignee, a review reason implies review. |
| `Workflow.MovedFlowOk` | server/internal/boards/store.go:1034-1047 | The same for a move that names a status. |
| `Workflow.PlainEditKeepsFlow` | server/internal/boards/store.go:1461-1477 | An update that names no status, done flag or assignee leaves status, assignee, run and review reason as they were. |
| `Workflow.UpdateDecides` | server/internal/boards/store.go:1421-1477 | The assignee is the one named; ownership survives if and only if the task neither goes back to the queue nor changes hands; a review reason survives only a stay in review; a queued or working assignee is an active agent. |
| `Workflow.UpdateSettles` | server/internal/boards/store.go:1388-1436 | The status an accepted update leaves, as a table over the status asked for, by name or by the flag of released clients, and the change of assignee; a step of the hand-over result. |
| `Workflow.MoveDecides` | server/internal/boards/store.go:1035-1047 | Of a move with a status, only going to the queue gives ownership up, and it never reassigns; a step of the ownership results. |
| `Ordering.RemoveTaskIds` | server/internal/boards/store.go:1236-1251 | The in-place filter leaves in the kept prefix exactly the identifiers outside the removed set, in their old order. |
| `Ordering.InsertedMeans` | server/internal/boards/store.go:1253-1259 | A splice keeps everything that was there in its old order, repeats nothing and holds the group in one piece at the position. |
| `Ordering.WriteTaskOrder` | server/internal/boards/store.go:1279-1286 | The loop of updates numbers every task of the order by its position and changes nothing else. |
| `Ordering.NumberedOrder` | server/internal/boards/store.go:1167-1211 | A list numbered by an order reads back in exactly that order. |
| `Ordering.OrderedAscends` | server/internal/boards/store.go:1167-1211 | A list reads by number, of equal numbers the older task first, and of equal ages the lower identifier. |
| `Ordering.StepPast` | server/internal/boards/store.go:1102-1113 | The loop ends past the reference and past each of its subtasks that is in the list, directly after one of them or where it began, and inside the list. |
| `Ordering.MovePositionMeans` | server/internal/boards/store.go:1081-1119 | Where each kind of request lands: at the end; directly before the reference; directly past the reference and the last of its subtasks; at the position the task had in its own list, as far as the destination reaches; or where the request says. A reference is accepted if and only if it is in the destination. |
| `Ordering.PreservedPosition` | server/internal/boards/store.go:1082-1094 | The position kept by a move always exists, so the fallback to the stored number is never taken. |
| `Ordering.MoveMeans` | server/internal/boards/store.go:1072-1143 | From any rows with sound nesting a move numbers the destination 0 to n-1, puts the subtasks directly after the task in their old order, keeps the order of all others, closes the source up, and touches no other list and nothing but places. |
| `SubtaskOrder.AcceptsOrder` | server/internal/boards/store.go:1705-1717 | The loop that crosses requested subtasks off accepts exactly the permutations of the current ones. |
| `SubtaskOrder.NewOrderMeans` | server/internal/boards/store.go:1735-1750 | The order written to each touched list: the others as they were, and in the parent's list the subtasks directly after the parent in the requested order. |
| `SubtaskOrder.ReorderMeans` | server/internal/boards/store.go:1718-1766 | After an accepted reorder the subtasks sit in the parent's list directly after it even if some had strayed, every touched list is numbered 0 to n-1, and no other list changes. |
| `SubtaskOrder.ReorderIsOrderFree` | server/internal/boards/store.go:1758-1765 | The result is the same whatever order the map of lists is iterated in. |
| `Storage.StorageQuota.Apply` | server/internal/boards/storage_quota.go:67-90 | The counters move by exactly the two deltas or not at all, with the error of the first limit that refuses. |
| `Storage.ChargedMeans` | server/internal/boards/storage_quota.go:67-90 | An accepted change moves the counters by its size, and what grows ends within its limit. |
| `Storage.ChargedExactly` | server/internal/boards/storage_quota.go:67-90 | A change is accepted if and only if what grows ends within its limit and nothing goes below zero, or nothing changes; the task limit is named before the content limit. |
| `Storage.LockedTaskStorage` | server/internal/boards/storage_quota.go:129-145 | The loop over the rows about to be deleted yields their number and the sum of their bytes in whatever order they come. |
| `Storage.StorageOfSum` | server/internal/boards/storage_quota.go:105-127 | The per-task sums used by deletions add up to the bytes of the tasks plus the bytes of their entries. |
| `Storage.MeasuredDelete` | server/internal/boards/store.go:1569-1582 | Deleting tasks with their entries lowers the recomputed totals by exactly the per-task sums. |
| `Storage.MeasuredAddTask` | server/internal/boards/store.go:804-811 | Adding a task raises the recomputed totals by one and by its bytes. |
| `Storage.MeasuredEdit` | server/internal/boards/store.go:1445-1450 | Rewriting one row changes the recomputed bytes by exactly the difference of its old and new contents. |
| `Storage.MeasuredAddEntry` | server/internal/boards/store.go:2066-2081 | Adding an entry raises the recomputed bytes by the length of its body. |
| `StoreInvariants.CreateKeeps` | server/internal/boards/store.go:724-824 | A creation, new or replayed, keeps the invariant of the account. |
| `StoreInvariants.InsertShape` | server/internal/boards/store.go:787-822 | An accepted insertion stores the requested content as a top-level task or below a top-level parent in its list, queues it if it is assigned, records the key with this very task, and charges one task and its bytes. |
| `StoreInvariants.ListChangeMeans` | server/internal/boards/store.go:1351-1387 | Given nesting, a list change in an update is a move of a top-level task with all its subtasks to the top of the other list. |
| `StoreInvariants.UpdateKeeps` | server/internal/boards/store.go:1293-1511 | An update by a person or an agent keeps the invariant. |
| `StoreInvariants.MoveKeeps` | server/internal/boards/store.go:992-1165 | A move keeps the invariant; given nesting only top-level tasks move, and their subtasks follow. |
| `StoreInvariants.ClaimKeeps` | server/internal/boards/store.go:1528-1553 | A claim keeps the invariant. |
| `StoreInvariants.InsertedEntryIsNew` | server/internal/boards/store.go:1962-2078 | An entry is stored only if its author has none on the task under that key, so the unique index never has to refuse one. |
| `StoreInvariants.EntryStored` | server/internal/boards/store.go:2022-2104 | What an entry that is no repetition stores, what it does to its task, what the reply says, and by how much the counters grow; a step of the invariant. |
| `StoreInvariants.EntryKeeps` | server/internal/boards/store.go:1921-2109 | A comment or an output keeps the invariant, including at most one entry per task, author and key. |
| `StoreInvariants.TaskCascade` | server/internal/boards/store.go:1569-1585 | Because nesting is one level deep, what the database deletes below a task is exactly the direct subtasks the counters were charged for. |
| `StoreInvariants.BucketCascade` | server/internal/boards/storage_quota.go:105-127 | Because subtasks are in their parent's list, deleting a list takes along nothing outside it. |
| `StoreInvariants.DeleteKeeps` | server/internal/boards/store.go:1555-1593 | A task deletion keeps the invariant, counters included. |
| `StoreInvariants.DeleteBucketKeeps` | server/internal/boards/store.go:400-442 | A list deletion with its cascade keeps the invariant, counters included. |
| `StoreInvariants.OrderSubtasksKeeps` | server/internal/boards/store.go:1659-1767 | Reordering subtasks keeps the invariant. |
| `StoreInvariants.OrderTasksKeeps` | server/internal/boards/store.go:1595-1621 | Reordering a list keeps the invariant. |
| `StoreInvariants.KeysUntouched` | server/internal/boards/store.go:815-822 | Only creations and deletions touch the stored keys, and only new entries and deletions the stored entries. |
| `StoreInvariants.StepKeeps` | server/internal/boards/store.go:724-2109 | Every transaction, accepted or rolled back, keeps the invariant. |
| `StoreInvariants.ReachableInv` | server/internal/boards/store.go:724-2109 | In every account any run of the server reaches: sound workflow of every task, one-level nesting with subtasks in their parent's list, entries attached and unique per key, keys true to their tasks, counters equal to the recomputed totals. |
| `StoreResults.DeletionCounted` | server/internal/boards/storage_quota.go:77-80 | What a deletion takes off the counters is never more than they hold. |
| `StoreResults.CountersStaySound` | server/internal/boards/storage_quota.go:67-90 | In every reachable account the counters equal the recomputed totals, no step fails because a counter would become negative, and an accepted step that grows a counter ends within the limit. |
| `StoreResults.MoveTaskOrders` | server/internal/boards/store.go:1057-1143 | Every accepted move transaction leaves the lists as a move to the requested position does, whatever status it writes as well. |
| `StoreResults.UpdateTaskOrders` | server/internal/boards/store.go:1351-1387 | Every accepted update that names another list leaves the lists as a move to the top of it does, and changes no other task's content or workflow. |
| `StoreResults.CreatedLast` | server/internal/boards/store.go:877-887 | A new task is the last of its list and the order of the others is unchanged. |
| `StoreResults.ReorderTasksNumbers` | server/internal/boards/store.go:1607-1619 | A plain reorder gives each task it names its last position in the order, also when it names a task twice, and changes nothing else. |
| `StoreResults.StepField` | server/internal/boards/store.go:1329-1417 | Any step leaves a text or the priority of a stored task as it was, unless it is an accepted update of that task that names it, and then it is what was named. |
| `StoreResults.LastWriteHolds` | server/internal/boards/store.go:1329-1417 | In any run of the server, each text and the priority of a stored task is what the last accepted update that named it said. |
| `Store.NumberTasks` | server/internal/boards/store.go:1607-1619 | The loop of updates writes the numbers one after the other, a task named twice keeping its last. |
| `StoreResults.AgentUpdateScope` | server/internal/boards/store.go:985-989 | An agent's accepted update was on a task assigned to it, under the owning run or under none, and left place and assignee alone, and the whole workflow if a run owns the task. |
| `StoreResults.DeletedExactly` | server/internal/boards/store.go:1555-1593 | A deletion removes exactly the task, its subtasks and their entries, and keeps every key. |
| `StoreResults.ListDeletedExactly` | server/internal/boards/store.go:400-442 | A list deletion removes exactly the list, its tasks and their entries, and keeps every key. |
| `StoreResults.InboxSurvives` | server/internal/boards/store.go:353-377 | Exactly one list is the inbox before and after every step: creating, editing and deleting lists move the marker but never lose or double it. |
| `StoreResults.ReplayedExactly` | server/internal/boards/store.go:748-777 | A retry under a used key is taken for the first request if and only if it describes the same task, agrees on status and priority when it names either, and came the same way, or is a subtask whose task still exists and agrees on both. |
| `StoreResults.KeyLasts` | server/internal/boards/store.go:816-822 | Over any steps the record of a used key keeps its request and at most forgets a deleted task. |
| `StoreResults.RetryIsAnswered` | server/internal/boards/store.go:724-824 | In any run of the server, an accepted retry stores nothing, returns the task of the first request, and agreed with it on title, description, date, kind, assignee and parent, and on status and priority when it named either. |
| `Decisions.UpdateStored` | server/internal/boards/store.go:1293-1511 | The stored row after every accepted update: the assignee named, the status asked for as far as the assignment allows, a run and a review reason only if nothing took them away, the place as named, and no other row unless the list changes. |
| `Decisions.UpdateAccepted` | server/internal/boards/store.go:985-1441 | An update is accepted if and only if what it names parses, an agent stays within its task, run and fields, a list change is one of a top-level task to a list of the account, the workflow part is allowed, and growth stays within the limit. |
| `Decisions.UpdateRefusals` | server/internal/boards/store.go:985-1325 | An update is refused as out of scope, as a run mismatch or as locked by its run if and only if an agent names a place or an assignee, speaks on its task under another run than the one that owns it, or names the status of a task its run owns. |
| `Decisions.MoveStored` | server/internal/boards/store.go:1034-1156 | The stored rows after every accepted move: the status named, queued instead of new for an assigned task, the run kept unless it is queued, the review reason only over a stay in review, and no content or other workflow touched. |
| `Decisions.MoveAccepted` | server/internal/boards/store.go:992-1119 | A move is accepted if and only if it names one place in a list of the account for a top-level task, a position inside it, beside one of its tasks, at its end or the task's own, and a status the task may take. |
| `Decisions.CreateStored` | server/internal/boards/store.go:724-824 | The row of a creation that is no retry: as described, in the list of its parent or else the one it was sent to, queued exactly if it is assigned, without a run, and recorded under its key. |
| `Decisions.CreateAccepted` | server/internal/boards/store.go:605-824 | A creation that is no retry is accepted if and only if its fields are valid, its parent is a top-level task or its list is one of the account, its assignee is active and both limits have room. |
| `Decisions.CreateRefusals` | server/internal/boards/store.go:743-783 | A creation under a used key is refused as a misused key if and only if it is no retry of the recorded request, and as gone if and only if it is one and the task was deleted. |
| `Decisions.EntryAccepted` | server/internal/boards/store.go:1921-2109 | An entry that is no repetition is accepted if and only if it is well-formed, a managed one names a key, the author may speak on the task under the run that owns it, and there is room on the task and in the account. |
| `Decisions.EntryRepeated` | server/internal/boards/store.go:1921-2109 | A repeated entry is accepted if and only if it says the same under the same run; it stores nothing and answers with the first entry. |
| `Decisions.EntryAnswered` | server/internal/boards/store.go:1921-2109 | Stored or found, an agent gets an answer only on a task of its own and under the run that owns it. |
| `Decisions.EntryRefusals` | server/internal/boards/store.go:1921-2109 | An entry is refused as a run mismatch if and only if an agent speaks on its task under another run than the one that owns it, and as a misused key if and only if one under that key says something else. |
| `Decisions.DeleteAccepted` | server/internal/boards/store.go:1555-1593 | Every stored task can be deleted: the counters never stand in the way. |
| `Decisions.DeleteBucketAccepted` | server/internal/boards/store.go:400-475 | Every list but the only inbox can be deleted. |
| `Decisions.ReorderStored` | server/internal/boards/store.go:1595-1621 | A plain reorder is accepted if and only if the list exists and holds every task named; each gets the last position at which it is named, and nothing else changes. |
| `Decisions.BucketCreated` | server/internal/boards/store.go:255-325 | A new list is added to the others, and takes the inbox marker from them if it is the inbox. |
| `Decisions.BucketEdited` | server/internal/boards/store.go:327-398 | An edit of a list is accepted if and only if it is valid and does not take the marker from the only inbox; naming a list the inbox takes the marker from the others. |
| `Decisions.KeyRemembers` | server/internal/boards/store.go:724-824 | Over any run a key knows its task if and only if the task has been stored all along. |
| `Decisions.SameRetryAccepted` | server/internal/boards/store.go:724-824 | Over any run, sending a creation again word for word returns its task and stores nothing if and only if the task has not been deleted since, whatever else happened to it. |
| `ManagedRuns.StepFlow` | server/internal/boards/store.go:992-2109 | All that any accepted step can do to the workflow of a task it does not delete: an update, a move with a status and a claim of the task leave exactly the flow they compute, an entry only an output's effect, and no other step touches it. |
| `ManagedRuns.AppearsUnowned` | server/internal/boards/store.go:870-888 | Only a creation makes a task appear, and it appears without a run. |
| `ManagedRuns.ClaimedExactly` | server/internal/boards/store.go:1528-1553 | Which claims are accepted, and that a claim writes status, run and review reason and nothing else; a step of the queue and hand-over results. |
| `ManagedRuns.OwnershipBegins` | server/internal/boards/store.go:1528-1553 | A run comes to own a task only by an accepted claim of that run, on a queued task assigned to its agent, which then is working. |
| `ManagedRuns.OwnershipEnds` | server/internal/boards/store.go:1461-1477 | A step ends the ownership of a run if and only if it is a person's update or move of that task after which the task is queued or has another assignee, or a deletion that takes the task along. |
| `ManagedRuns.OwnedStatusChanges` | server/internal/boards/store.go:1310-1325 | While a run owns a task, the only step with an agent's credential that changes its status is an output entry of that run, and it goes from working to review. |
| `ManagedRuns.OneClaimPerStay` | server/internal/boards/store.go:1528-1553 | Between two accepted claims of one task it was put back into the queue. |
| `ManagedRuns.OwnershipLasts` | server/internal/boards/store.go:1461-1477 | Over any run of the server, a run owns its task all along if and only if no person requeues or reassigns the task and nobody deletes it. |
| `ManagedRuns.OwnedFlow` | server/internal/boards/store.go:1144-1155 | Of all steps only a person's update or move of the task changes the run of an owned task. |
| `ManagedRuns.HandedOverIsClaimable` | server/internal/boards/store.go:1427-1477 | In any run of the server, a step that gives a stored task to another agent leaves it done, or free of any run and such that this agent's claim is accepted. |
| `ManagedRuns.ReachableActions` | server/internal/boards/store.go:614-620 | In every reachable account every task is an action. |
| `ManagedRuns.FirstAnswer` | server/internal/boards/store.go:1998-2005 | Whether a managed entry is stored or found again, the reply is the one its kind determines. |
| `ManagedRuns.EntryLasts` | server/internal/boards/store.go:2067-2072 | A stored entry never changes and disappears only with its task. |
| `ManagedRuns.ManagedEntryRepeats` | server/internal/boards/store.go:1962-2011 | Over any steps in between, repeating a managed entry while its run owns the task stores nothing and returns the same entry, status and review reason as the first call. |
| `Supervision.ClassifyRunEntries` | cli/cmd/slate/api.go:100-114 | The loop reports an output, or a comment, if and only if the run left one. |
| `Supervision.JudgeMeans` | cli/cmd/slate/watch.go:740-778 | When an inspection reports a delivered result or a request for help, and that giving the worktree up takes an exit, no sign that the run ever held the task, and an unbroken view of its life. |
| `Supervision.RoundMeans` | cli/cmd/slate/watch.go:740-778 | The same about one whole round: a result is reported if and only if the round shows one, likewise a request for help, and an inspection after the exit was seen always decides. |
| `Supervision.RunSupervision.NoteReadFailure` | cli/cmd/slate/watch.go:886-897 | A retryable failure of a read begun while the executor was alive is remembered, and no other. |
| `Supervision.RunSupervision.InspectRun` | cli/cmd/slate/watch.go:704-779 | Evidence only accumulates: each flag is set exactly by what this inspection saw, and the verdict is drawn from all of it. |
| `Supervision.SuperviseRun` | cli/cmd/slate/watch.go:548-674 | The loop over the four flags, the exit and the count of failed reads computes the outcome the rounds determine, with everything proved of it. |
| `Supervision.SupervisedMeans` | cli/cmd/slate/watch.go:548-779 | Over every script of answers, supervision ends with the first final round: a result, a request for help, a refused read, a failed read of a watcher that is stopping, a completed one after the exit or when stopping, or the sixth failed read since the exit. It reports success if and only if that round shows the result on a task in review or done, blocked if and only if it shows a comment on a task still working, an interruption if and only if nothing could be read or a run that held its task exited or was stopped; it calls the worktree disposable if and only if no completed inspection saw the run on the task or found its entries, one completed while it was alive, no retryable read begun while it was alive failed, and the last completed after the exit, and then by who holds the task; all else is ambiguous. The group is reported gone if and only if stopping it worked or the executor was known to be reaped and left nothing. |
| `Supervision.EndsPromptly` | cli/cmd/slate/watch.go:587-606 | Once the exit is noticed supervision ends within six reads. |
| `Watcher.LastReadAfterExit` | cli/cmd/slate/watch.go:648-673 | The inspection that gives a worktree up read the server after the executor had exited. |
| `Watcher.DiscardedRunNeverSeenOwning` | cli/cmd/slate/watch.go:725-778 | For every interleaving of server steps and inspections: at the moment of each completed inspection of a discarded run, the server's task was not owned by it. |
| `Watcher.ClaimedRunIsKept` | cli/cmd/slate/watch.go:697-779 | If a discarded run ever owned its task by the time its executor exited, then between that moment and the last read a person requeued or reassigned that very task. |
| `Watcher.WritingRunIsKept` | cli/cmd/slate/watch.go:730-755 | A run that wrote on its task while its executor lived is never discarded while the task exists, whatever people do to the task. |
| `Watcher.ClaimedWorkIsKept` | cli/cmd/slate/watch.go:444-477 | Whatever fails and however the reads interleave with the server, once its executor started, the worktree of a run that owned its task is left on disk unless a person requeued or reassigned the task. |
| `Watcher.WrittenWorkIsKept` | cli/cmd/slate/watch.go:444-477 | The same for a run that wrote on its task, whatever people do to the task while it exists. |
| `Watcher.AttemptOffer` | cli/cmd/slate/watch.go:360-491 | An attempt made against a running server leaves the worktree of such a run on disk, with a record. |
| `WatchLoop.Host.Save` | cli/cmd/slate/registry.go:100-133 | Saving is atomic: the record is the new one, or the registry is as it was. |
| `WatchLoop.Host.GiveUp` | cli/cmd/slate/watch.go:390-420 | Backing out of a run that has not started: what is left on disk and in the registry, what the record says, and the error, for every answer. |
| `WatchLoop.Host.Attempt` | cli/cmd/slate/watch.go:360-491 | For every subset of failing steps, the attempt leaves exactly the worktree, the record and its state, the launch with its report and the result that the answers determine; an executor may start only if every earlier one was reported gone, and an attempt be made only after fewer than five failures in a row. |
| `WatchLoop.AttemptIsSafe` | cli/cmd/slate/watch.go:365-491 | Whatever subset of steps fails: a worktree is left without a record if and only if creating and cleaning up both failed or all of saving, discarding and saving again did, and the latter is reported as undiscoverable; a discarded worktree leaves a record only with the error that says so; an executor not reported gone is reported as surviving or as the server's terminal answer; and a started run's worktree is removed only once the executor is gone and on the evidence that the run never held the task. |
| `WatchLoop.AttemptReports` | cli/cmd/slate/watch.go:360-491 | What the result of an attempt tells: success, blocked and the server's terminal answer are reported if and only if the last round of supervision shows them, a lost race or an executor that never claimed if and only if the run never held the task, who holds it says which, and nothing of the run is left. |
| `WatchLoop.AttemptErrors` | cli/cmd/slate/watch.go:365-491 | An executor starts if and only if worktree and record were made, at most ten records were counted or the count failed, and it could be started; each error is reported if and only if exactly its steps failed. |
| `WatchLoop.RecordTells` | cli/cmd/slate/watch.go:444-477 | What the record left says: it agrees with the result; it calls a run disposable only if its executor survives; and if everything could be saved, a run whose attempt is over is not recorded as running unless removing the record failed. |
| `WatchLoop.CreationCanOrphan` | cli/cmd/slate/gitrepo.go:141-156 | A checkout that fails and cannot be cleaned up leaves a worktree without a record, and the loop goes on. |
| `WatchLoop.Host.Oversee` | cli/cmd/slate/watch.go:421-491 | Following a started executor to its end: what it leaves, the state in its record, and the report about its process group. |
| `WatchLoop.Host.StartExecutor` | cli/cmd/slate/watch.go:496-515 | An executor starts only if every earlier one was reported gone, and each start is logged. |
| `WatchLoop.Host.Run` | cli/cmd/slate/watch.go:261-357 | Over every execution the loop takes exactly the turns the reference takes, with all that is proved of them, and the executors and results logged are exactly theirs: each executor but the last was reported gone before the next started, and the worktrees and records left are those the attempts leave. |
| `WatchLoop.WatchedMeans` | cli/cmd/slate/watch.go:261-357 | The loop takes turns up to the first that ends it. It gives up with an error if and only if the last was a failed check or an attempt that failed for good, with a surviving group, an undiscoverable worktree, a record that could not be removed or the server's terminal answer; it stops quietly if and only if the last was a cancellation or a blocked or interrupted run; it stops for too many failures if and only if the last five attempts each failed locally or ended without a claim, and there was no such streak before; after every other turn it goes on. |
| `WatchLoop.OrphansExactly` | cli/cmd/slate/watch.go:311-329 | The worktrees the loop leaves without a record are exactly those of the attempts that orphan theirs. |
| `WatchLoop.StreakGrows` | cli/cmd/slate/watch.go:322-352 | The counter reaches its limit exactly with the first streak of five. |
| `RetentionCap.StepKeepsListings` | cli/cmd/slate/registry.go:163-194 | A listing that is being read misses no record of a run that listed before it, whatever is saved, removed or cleaned meanwhile. |
| `RetentionCap.StepKeepsRoom` | cli/cmd/slate/watch.go:386-404 | A run launches only if every run that listed before it and still has a record fits under the cap with it. |
| `RetentionCap.CapHolds` | cli/cmd/slate/watch.go:375-404 | For any number of watchers and any interleaving of check, save, recount, back-out, crash and clean-up, launched runs that still have a record never exceed ten. |
| `RetentionCap.LaunchedExactly` | cli/cmd/slate/watch.go:386-404 | A run launches if and only if it decides on a count within the cap, backs out otherwise, and having launched is for good. |
| `RetentionCap.RecordGoesExactly` | cli/cmd/slate/registry.go:100-161 | A record comes only with its run, and goes if and only if its run backs out or finishes and it is removed, or it is cleaned up after the watcher is done. |
| `RetentionCap.LaunchesWithRoom` | cli/cmd/slate/watch.go:375-404 | Nobody backs out without cause: in every interleaving, a run that counts while no more than ten runs in all have a record launches. |
| `RateLimit.Pruned` | server/internal/ratelimit/ratelimit.go:256-262 | The loop keeps exactly the entries of the last minute, in order. |
| `RateLimit.DropLastTime` | server/internal/ratelimit/ratelimit.go:289-294 | The backward scan removes the last entry equal to the reservation's time and no other. |
| `RateLimit.NormalizedKeys` | server/internal/ratelimit/ratelimit.go:464-484 | The loop yields each usable key once and nothing else. |
| `RateLimit.RetryAfterSeconds` | server/internal/ratelimit/ratelimit.go:514-520 | The advertised whole seconds, the delay-seconds form of section 10.2.3 of RFC 9110, are the least number of seconds that does not end before the wait, and at least one. |
| `RateLimit.RetryAfterIsLeast` | server/internal/ratelimit/ratelimit.go:510-512 | The wait is positive and is the least after which the log has room, even when the log is longer than the limit. |
| `RateLimit.RefusalIsLeast` | server/internal/ratelimit/ratelimit.go:110-121 | The same read off the full history, and the advertised seconds suffice. |
| `RateLimit.LargestWaitIsLeast` | server/internal/ratelimit/ratelimit.go:368-380 | The largest wait over the full keys is the least after which all keys have room. |
| `RateLimit.DecisionIsLeastWait` | server/internal/ratelimit/ratelimit.go:187-193 | A refusal under one key advertises exactly the least wait. |
| `RateLimit.JointDecision` | server/internal/ratelimit/ratelimit.go:368-400 | The loop over several keys allows if and only if none is full, and otherwise waits for the slowest full one. |
| `RateLimit.AdmitKeeps` | server/internal/ratelimit/ratelimit.go:267-274 | Storing an admission keeps the agreement of stored and full log, in order, within the limit of every minute. |
| `RateLimit.CancelKeeps` | server/internal/ratelimit/ratelimit.go:276-301 | Giving a reservation back keeps it, whether or not the row is still there. |
| `RateLimit.DeletionKeeps` | server/internal/ratelimit/ratelimit.go:440-452 | Deleting expired rows, whichever the database picks, loses no live admission. |
| `RateLimit.LimitHolds` | server/internal/ratelimit/ratelimit.go:240-265 | From the invariant every call keeps: the stored log gives the live admissions of the full history at every later moment, and no minute holds more than the limit. |
| `LimiterRuns.NoMinuteOverLimit` | server/internal/ratelimit/ratelimit.go:80-438 | After any sequence of calls, no key has more admissions that were not given back in any one-minute window than the read setting for reads, the write setting for writes and the public setting for public routes. |
| `LimiterRuns.Perform` | server/internal/ratelimit/ratelimit.go:80-418 | Each call changes the history exactly as a reference does that keeps every admission for ever and admits if and only if the last minute has room under every key. |
| `LimiterRuns.PerformAll` | server/internal/ratelimit/ratelimit.go:80-418 | For any calls with nondecreasing times on an empty store, at every later moment each stored log, pruned, rewritten, expired and given back as it is, holds exactly the admissions of the last minute that the reference knows. |
| `RateLimit.Limiter.LockedState` | server/internal/ratelimit/ratelimit.go:240-265 | Creates the row if needed and returns exactly the live admissions of the full history. |
| `RateLimit.Limiter.Admit` | server/internal/ratelimit/ratelimit.go:267-274 | The history of the key grows by this admission and the state stays sound. |
| `RateLimit.Limiter.ReserveCredential` | server/internal/ratelimit/ratelimit.go:80-134 | Admits if and only if the live history is below the setting for the class of route, with the number still to come; advertises the least wait otherwise; and records exactly the admission it reports. |
| `RateLimit.DecisionAnswers` | server/internal/ratelimit/ratelimit.go:420-438 | Every decision is by the setting of its class of route: reads, writes and public routes each by their own. |
| `RateLimit.Limiter.RemoveReservation` | server/internal/ratelimit/ratelimit.go:276-301 | Takes the reservation's entry out of the history. |
| `RateLimit.Limiter.CancelCredential` | server/internal/ratelimit/ratelimit.go:216-229 | Gives exactly the reserved slot back. |
| `RateLimit.Limiter.FinalizeCredential` | server/internal/ratelimit/ratelimit.go:159-214 | Admits the account if and only if it is below the setting of its class, or refuses it with the least wait and gives the credential's reservation back; without an account it changes nothing. |
| `RateLimit.Limiter.Allow` | server/internal/ratelimit/ratelimit.go:303-418 | All keys are charged or none is, by the setting of the class of route; what remains is that of the fullest key; a refusal advertises the least wait after which all of them have room. |
| `Authentication.Attempt.Gate` | server/internal/server/app.go:240-254 | Reserving charges the credential exactly if it passes its own limit. |
| `Authentication.Attempt.ResolveSession` | server/internal/auth/auth.go:654-669 | What the session cookie alone yields, with at most its credential charged. |
| `Authentication.Attempt.ResolveUser` | server/internal/auth/auth.go:608-638 | The session first, then the bearer token; every credential that passed its limit is charged, and only those. |
| `Authentication.Attempt.CancelReservations` | server/internal/server/app.go:265-275 | Gives back every reservation but one, in whatever order the map yields them. |
| `Authentication.Attempt.Authenticate` | server/internal/server/app.go:219-313 | With limiter calls succeeding, a request is admitted if and only if a presented credential identifies a user, the session before the bearer token, and the account has room; it then holds one slot of that credential and one of the account, none when the account is full or the lookup fails, and one per presented credential that passed its limit when nobody is identified. A denial says that a credential was over its limit if and only if one that was tried was. The slots its calls reserved are exactly those of the credentials that were tried and passed, so none can be left out of the account. |
| `Authentication.ResolvedMeans` | server/internal/auth/auth.go:607-660 | Who is identified: the user of the session if it passed its limit and was found, otherwise that of the bearer token unless the session could not be looked up or only sessions count; and exactly when the lookup breaks. |
| `Authentication.LogHoldsConsumed` | server/internal/ratelimit/ratelimit.go:276-301 | Over any calls that give back only what was taken, the length of a credential's log is what the calls consumed. |
| `Authentication.InterleavingBracketed` | server/internal/server/app.go:265-300 | However the calls of many requests interleave, if each gives back only what it took, so do all together. |
| `Charging.SlotsDiffer` | server/internal/auth/auth.go:628-660 | Different credentials are limited under different keys. |
| `Charging.PerformCall` | server/internal/ratelimit/ratelimit.go:80-229 | Made on the limiter, a call is answered as recorded if and only if the last minute of its slot has room or not accordingly (a finalize under the empty account name never is), and then changes the history to exactly the one the call leads to. |
| `Charging.PerformCalls` | server/internal/ratelimit/ratelimit.go:80-229 | Makes any calls in the order of their commits and says, if and only if, whether every one is answered as recorded by the history before it; then the limiter holds exactly the history of the calls. |
| `Charging.CredentialLogs` | server/internal/ratelimit/ratelimit.go:80-229 | In the history of any calls, the log of every credential is the one its reserves, cancels and refused finalizes produce. |
| `Charging.RequestAddsItsCharges` | server/internal/server/app.go:219-313 | However the calls of authenticating requests interleave on the limiter, it holds under every credential and every account what all other requests consumed, plus one for each credential and account this request was charged; for an admitted request those are its credential and its account. |
| `Cleanup.Batch` | server/internal/cleanup/cleanup.go:118-165 | One batch of a rule that goes on is the rule after the database's answer, and the rule goes on exactly if it has not stopped. |
| `Cleanup.BatchOfKeeps` | server/internal/cleanup/cleanup.go:118-165 | A batch limit is between one and the batch size and within the budget left; the rule grows by exactly what was deleted; it fails exactly if the deletion or the backlog query erred; and if it stops below budget without an error it has no backlog or deleted nothing. |
| `Cleanup.Round` | server/internal/cleanup/cleanup.go:114-166 | A pass over the rules leaves strictly less work unless time ran out. |
| `Cleanup.RunWithBudget` | server/internal/cleanup/cleanup.go:93-186 | Terminates for every sequence of answers even if time never runs out, and fails exactly on invalid settings. Each deletion was tried in time and for a rule that had not stopped; every result is what the database answered to the deletions of that rule; the total is the sum over the rules; every rule has stopped unless time ran out after exactly these deletions; and the run reports its budget reached if and only if time ran out or a rule reached its own. |
| `Cleanup.ReportMeans` | server/internal/cleanup/cleanup.go:114-186 | What a report says of the run: every batch was tried below budget and with a limit of at least one; no rule deleted more than its budget, and its flag is set if and only if it spent it; while time is left every rule failed, spent its budget, or ran out on the word of the database; a backlog still unknown is what the closing query answered; and if the database never errs no rule failed. |
| `Cleanup.StopExplained` | server/internal/cleanup/cleanup.go:133-165 | A rule that stopped without an error and below its budget reports the backlog the database named after the last deletion tried for it: none, or some of which that deletion removed nothing. |
| `Cleanup.FailuresExplained` | server/internal/cleanup/cleanup.go:133-151 | Over any run a rule failed in a deletion if and only if the database erred on one of its deletions, and in a backlog query if and only if it erred on the query after one of its short batches. |
| `Cleanup.FinalBacklogs` | server/internal/cleanup/cleanup.go:171-183 | The closing pass asks exactly for the backlogs still unknown of rules without an error while time is left, and changes no count. |
| `Paging.AfterCursorIsPrecedes` | server/internal/boards/store.go:2234-2285 | Each nested-OR predicate is "strictly after the cursor's task" in the mixed-direction lexicographic order it serves, for all six orderings, and every issued cursor is accepted. |
| `Paging.OrderingTotal` | server/internal/boards/store.go:2221-2233 | Each ordering tells any two tasks apart. |
| `Paging.PageLimit` | server/internal/boards/store.go:2209-2220 | The page size is the one asked for if and only if that is within bounds, and otherwise the default or the largest for the kind of listing. |
| `Paging.PageFrom` | server/internal/boards/store.go:2286-2344 | A page asked for with the cursor of a task is the stretch of the listing after it, and carries a cursor exactly when something is left. |
| `Paging.FollowCursors` | server/internal/boards/store.go:2151-2344 | Whatever limits a client asks for, following cursors from the first page reaches a page without one. |
| `Paging.ChainIsPrefix` | server/internal/boards/store.go:2286-2344 | However far cursors were followed, the pages together are the beginning of the listing and the last cursor asks for exactly the rest. |
| `Paging.FollowedToTheEnd` | server/internal/boards/store.go:2151-2344 | Over an unchanged account, pages followed until there is no cursor hold together every matching task exactly once, for all six orderings and any limits: an agent's queue by urgency from P0 to none and then oldest first, people's listings newest first within the urgency, the list or both they sort by, history by the last change. |
| `Paging.PrecedesInOrder` | server/internal/boards/store.go:2221-2233 | The column lists mean that order. |
| `Paging.FollowingStops` | server/internal/boards/store.go:2151-2344 | There are never more pages than matching tasks, or one, and every cursor handed out is accepted. |
| `Templates.MigratedIsSound` | web/src/pages/templates.tsx:105-134 | Whatever was stored, a template that loads has at least one phase, distinct phases, every step in a known phase, distinct step identifiers, and as many steps as were stored, each usable, with its stored title, its phase by identifier or by the first of that name, and its identifier unless that is blank or too long. |
| `Templates.ReloadsUnchanged` | web/src/pages/templates.tsx:105-134 | A template that was loaded and stored again loads as the same template. |
| `Templates.OrderedStepsPermute` | web/src/pages/templates.tsx:51-53 | Ordering the steps phase by phase loses none and repeats none. |
| `Templates.OrderedStepsInOrder` | web/src/pages/templates.tsx:51-53 | Every step of an earlier phase comes before every step of a later one, and the steps of one phase stand in the order they have in the template. |
| `Templates.KeysDiffer` | web/src/pages/templates.tsx:407-430 | The keys of the parent and of the steps of one attempt are pairwise different. |
| `Templates.ParentStored` | web/src/pages/templates.tsx:395-413 | The parent is stored as drafted, new and unassigned, in the chosen list or else the inbox. |
| `Templates.StepStored` | web/src/pages/templates.tsx:420-430 | A step is stored as a subtask in the parent's list, queued if it is for an agent and new otherwise. |
| `Templates.Tab.CreateFromTemplate` | web/src/pages/templates.tsx:392-439 | The resume loop posts each step only after the one before it was answered and saved, skips none, and is done exactly if all were. |
| `Templates.TabFollowsLoop` | web/src/pages/templates.tsx:391-439 | In any history of tabs and other steps, the posts and the progress of a tab that runs its loop once are exactly those of the loop, wherever the other events fall. |
| `Templates.CreateAnswers` | server/internal/boards/store.go:724-824 | A creation under a key finds the record and changes nothing, or stores a new one. |
| `Templates.EventKeeps` | web/src/pages/templates.tsx:391-439 | Every event of every tab, and every harmless step elsewhere, keeps the log of created tasks a prefix of the template and no tab ahead of it. |
| `Templates.CompletedAttempt` | web/src/pages/templates.tsx:391-439 | For any lost responses, reloads, restarts and concurrent tabs, once a tab is through, the attempt has created exactly one parent and below it exactly one subtask for each step, phase by phase and in each phase in the order of the template. |
| `Templates.CompletedLoadedAttempt` | web/src/pages/templates.tsx:105-134 | The same for an attempt made from any template that loads: its soundness is no assumption, and there is one subtask per stored step. |
| `Templates.CompletedStays` | web/src/pages/templates.tsx:391-439 | After that, no retry creates anything more. |

## Left out

- HTTP handlers, JSON, headers, base64 and SHA-256: requests arrive parsed, hashes are injective values.
- SQL itself, migrations and triggers: cascades are modelled as the deletion queries assume them, and
  rows deleted by `DeleteAgent` are not modelled; agents are only archived or added.
- `Store` transactions are values: they compute the account after the commit instead of updating rows
  statement by statement, so states inside a transaction, lock waits and deadlocks are not captured.
- Keys written by releases that stored no request data, and the expiry of keys after seven days:
  `Store` keeps every key, so the creation results hold while keys are retained.
- `checkTaskCapacity`, which always allows, and timestamps of the last update.
- Dense numbering is no global invariant: plain reorders, direct numbers in updates and deletions do
  not keep it, so it is claimed only for what moves and subtask reorders write.
- ListChange: a list change of a subtask that has subtasks of its own would leave those behind in the
  source; nesting rules such a task out in every reachable account, and the model moves them along.
- The limiter under timestamps that go back, changes of a limit, and its metrics.
- Reads other than those the watcher and pagination make; the account summary, which sums bytes without
  entries and is not the quota counter.
- Which filter selects which ordering, and the encoding of cursors and their scopes.
- Signals, process reaping and flock: whether a group is gone is what supervision reports. It is not
  claimed that a group is never signalled after it was reaped.
- RetentionCap.CapHolds: registry reads succeed; a recount that fails is ignored by the source, which
  then launches.
- WatchLoop.Host.Run: the waits, the check for work in progress and the look for candidates are one
  answer per turn; backoff lengths are not modelled.
- `loadCreationAttempt`: that a loaded attempt has no step index without a parent is assumed by
  `Templates`. JSON parsing and the default title of a loaded template are not modelled.
- Sessions, password mail, entitlements, configuration, prompts, React rendering and static files.
