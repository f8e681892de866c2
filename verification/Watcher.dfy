/** The watcher and the server together: what it means for the server's task that a supervised run's
    worktree is thrown away.

    Moments are indices into a run of the server: `boards[t]` is the account after `t` steps. */
module Watcher {
  import opened Basics
  import opened Boards
  import opened Store
  import opened StoreInvariants
  import opened ManagedRuns
  import opened Supervision
  import opened WatchLoop

  /** Whom the watcher works for. */
  datatype Offer = Offer(agent: Id, task: Id, run: Id)

  /** When the checks and the reads of one round took effect. */
  datatype Times = Times(first: nat, task: nat, middle: nat, entries: nat, last: nat, wake: nat)

  predicate Forward(t: Times) {
    t.first <= t.task <= t.middle <= t.entries <= t.last <= t.wake
  }

  /** Moments only move forward. The executor exits at `exit`: a check that finds it alive is no later,
      and a wait that ends because it finished is no earlier. */
  ghost predicate Timeline(rounds: seq<Round>, times: seq<Times>, exit: nat) {
    && |times| == |rounds|
    && (forall i :: 0 <= i < |times| ==> Forward(times[i]))
    && (forall i, j :: 0 <= i < j < |times| ==> times[i].wake <= times[j].first)
    && (forall i :: 0 <= i < |times| && rounds[i].aliveFirst ==> times[i].first <= exit)
    && (forall i :: 0 <= i < |times| && rounds[i].aliveMiddle ==> times[i].middle <= exit)
    && (forall i :: 0 <= i < |times| && rounds[i].aliveLast ==> times[i].last <= exit)
    && (forall i :: 0 <= i < |times| && Reaped(rounds[i].wake) ==> exit <= times[i].wake)
  }

  /** A task read by its agent: found only while it is assigned to that agent. */
  ghost predicate TaskAnswer(b: Board, offer: Offer, view: TaskView) {
    && offer.task in b.tasks
    && var flow := b.tasks[offer.task].flow;
       flow.assignee == Some(offer.agent) && view == TaskView(flow.status, flow.run)
  }

  /** The entries one run left on a task. */
  ghost predicate EntriesAnswer(b: Board, offer: Offer, views: seq<EntryView>) {
    forall e :: e in b.entries && b.entries[e].task == offer.task && b.entries[e].run == Some(offer.run) ==>
      EntryView(b.entries[e].kind, Some(offer.run)) in views
  }

  /** Every read that succeeded reports the account as it was at its moment. */
  ghost predicate Faithful(boards: seq<Board>, offer: Offer, rounds: seq<Round>, times: seq<Times>) {
    && |times| == |rounds|
    && forall i :: 0 <= i < |rounds| ==>
         && (rounds[i].task.Answer? ==> times[i].task < |boards| && TaskAnswer(boards[times[i].task], offer, rounds[i].task.value))
         && (rounds[i].entries.Answer? ==> times[i].entries < |boards| && EntriesAnswer(boards[times[i].entries], offer, rounds[i].entries.value))
  }

  /** The last round read after the executor had exited. */
  lemma {:induction false} LastReadAfterExit(rounds: seq<Round>, times: seq<Times>, exit: nat, run: Id)
    requires Timeline(rounds, times, exit) && NeverHeld(rounds, run)
    ensures exit <= times[|rounds| - 1].task <= times[|rounds| - 1].entries
  {
    var last := |rounds| - 1;
    var j :| 0 <= j < last && Reaped(rounds[j].wake);
    assert times[j].wake <= times[last].first && Forward(times[last]);
  }

  /** Whenever an inspection of a discarded run completed, the run did not own the task then. One was
      made while the executor was alive, and no retryable read begun while it was alive failed. */
  lemma {:induction false} DiscardedRunNeverSeenOwning(boards: seq<Board>, offer: Offer, rounds: seq<Round>, times: seq<Times>, exit: nat)
    requires Timeline(rounds, times, exit) && Faithful(boards, offer, rounds, times) && NeverHeld(rounds, offer.run)
    ensures forall i :: 0 <= i < |rounds| && Completed(rounds[i]) ==> !Owns(boards[times[i].task], offer.task, offer.run)
    ensures exists i :: 0 <= i < |rounds| && Completed(rounds[i]) && rounds[i].aliveLast && times[i].entries <= times[i].last <= exit
    ensures forall i :: 0 <= i < |rounds| && !ExitSeen(rounds, i) ==>
      && !(rounds[i].task == Failed(true) && rounds[i].aliveFirst)
      && !(rounds[i].task.Answer? && rounds[i].entries == Failed(true) && rounds[i].aliveMiddle)
  {
    forall i | 0 <= i < |rounds| && Completed(rounds[i])
      ensures !Owns(boards[times[i].task], offer.task, offer.run)
    {
      assert !SawOwner(rounds[i], offer.run);
    }
    var i :| 0 <= i < |rounds| && Completed(rounds[i]) && !ExitSeen(rounds, i) && rounds[i].aliveLast;
    assert Forward(times[i]);
  }

  // ---------------------------------------------------------------- nothing is lost

  /** No person requeues or reassigns the task from `from` on, and its identifier is not used again. */
  ghost predicate LeftAlone(boards: seq<Board>, steps: seq<Step>, id: Id, from: nat, until: nat)
    requires until <= |steps| < |boards|
  {
    forall k :: from <= k < until ==> !TakesAway(boards[k], steps[k], id) && !(steps[k].Create? && steps[k].task == id)
  }

  ghost predicate OwnsOrGone(b: Board, id: Id, run: Id) {
    id in b.tasks ==> Owns(b, id, run)
  }

  lemma {:induction false} StepOwnsOrGone(b: Board, step: Step, id: Id, run: Id)
    requires Inv(b) && OwnsOrGone(b, id, run) && !TakesAway(b, step, id) && !(step.Create? && step.task == id)
    ensures OwnsOrGone(After(b, step), id, run)
  {
    hide Apply, Inv;
    if id in b.tasks {
      OwnershipEnds(b, step, id, run);
    } else if id in After(b, step).tasks {
      AppearsAsNamed(b, step, id);
    }
  }

  /** A creation makes only the task it names appear. */
  lemma {:induction false} AppearsAsNamed(b: Board, step: Step, id: Id)
    requires Inv(b) && Apply(b, step).Ok? && id !in b.tasks && id in Apply(b, step).value.tasks
    ensures step.Create? && step.task == id
  {
    assert step.Create? by {
      hide Apply, Inv;
      AppearsUnowned(b, step, id);
    }
    hide NextOrder, Inv;
  }

  lemma {:induction false} OwnershipOrGoneLasts(boards: seq<Board>, steps: seq<Step>, id: Id, run: Id, from: nat, until: nat)
    requires Runs(boards, steps) && Fresh(boards[0]) && from <= until <= |steps|
    requires OwnsOrGone(boards[from], id, run) && LeftAlone(boards, steps, id, from, until)
    ensures OwnsOrGone(boards[until], id, run)
    decreases until - from
  {
    hide After, Inv, Fresh, OwnsOrGone, TakesAway;
    if from == until {
    } else {
      ReachableInv(boards, steps, from);
      assert boards[from + 1] == After(boards[from], steps[from]);
      assert !TakesAway(boards[from], steps[from], id) && !(steps[from].Create? && steps[from].task == id);
      StepOwnsOrGone(boards[from], steps[from], id, run);
      assert LeftAlone(boards, steps, id, from + 1, until);
      OwnershipOrGoneLasts(boards, steps, id, run, from + 1, until);
    }
  }

  /** A run that ever owned its task while its executor lived, and whose task no person has requeued or
      reassigned since, is never discarded: had its worktree been given up, some step in between
      would be a person's that took that very task away. */
  lemma {:induction false} ClaimedRunIsKept(boards: seq<Board>, steps: seq<Step>, offer: Offer, rounds: seq<Round>, times: seq<Times>, exit: nat, owned: nat)
    requires Runs(boards, steps) && Fresh(boards[0])
    requires Timeline(rounds, times, exit) && Faithful(boards, offer, rounds, times)
    requires owned <= exit && owned < |boards| && Owns(boards[owned], offer.task, offer.run)
    requires NeverHeld(rounds, offer.run)
    ensures owned <= times[|rounds| - 1].task < |boards|
    ensures !LeftAlone(boards, steps, offer.task, owned, times[|rounds| - 1].task)
  {
    hide Fresh, After;
    LastReadAfterExit(rounds, times, exit, offer.run);
    var last := |rounds| - 1;
    var read := times[last].task;
    assert !SawOwner(rounds[last], offer.run);
    if LeftAlone(boards, steps, offer.task, owned, read) {
      OwnershipOrGoneLasts(boards, steps, offer.task, offer.run, owned, read);
      assert false;
    }
  }

  /** Once a run has written on its task, every completed inspection that reads later sees it. */
  lemma {:induction false} WritingIsSeen(boards: seq<Board>, steps: seq<Step>, offer: Offer, rounds: seq<Round>, times: seq<Times>, wrote: nat, e: Id, i: nat)
    requires Runs(boards, steps) && Fresh(boards[0]) && Faithful(boards, offer, rounds, times)
    requires wrote < |boards| && e in boards[wrote].entries
    requires boards[wrote].entries[e].task == offer.task && boards[wrote].entries[e].run == Some(offer.run)
    requires forall k :: wrote <= k < |boards| ==> offer.task in boards[k].tasks
    requires i < |rounds| && Completed(rounds[i]) && wrote <= times[i].entries
    ensures SawEntries(rounds[i], offer.run)
  {
    hide Fresh, After;
    EntryLasts(boards, steps, e, wrote, times[i].entries);
    var kind := boards[times[i].entries].entries[e].kind;
    assert HasEntry(rounds[i].entries.value, offer.run, kind) && (kind == Output || kind == Comment);
  }

  /** A run that wrote anything on its task while its executor lived is never discarded while the task
      exists, whatever people do to the task afterwards. */
  lemma {:induction false} WritingRunIsKept(boards: seq<Board>, steps: seq<Step>, offer: Offer, rounds: seq<Round>, times: seq<Times>, exit: nat, wrote: nat, e: Id)
    requires Runs(boards, steps) && Fresh(boards[0])
    requires Timeline(rounds, times, exit) && Faithful(boards, offer, rounds, times)
    requires wrote <= exit && wrote < |boards| && e in boards[wrote].entries
    requires boards[wrote].entries[e].task == offer.task && boards[wrote].entries[e].run == Some(offer.run)
    requires forall k :: wrote <= k < |boards| ==> offer.task in boards[k].tasks
    ensures !NeverHeld(rounds, offer.run)
  {
    hide Fresh, After, NeverHeld, SawEntries;
    if NeverHeld(rounds, offer.run) {
      LastReadAfterExit(rounds, times, exit, offer.run);
      NeverHeldUnseen(rounds, offer.run);
      WritingIsSeen(boards, steps, offer, rounds, times, wrote, e, |rounds| - 1);
      assert false;
    }
  }

  // ---------------------------------------------------------------- end to end

  lemma {:induction false} TimelinePrefix(boards: seq<Board>, offer: Offer, rounds: seq<Round>, times: seq<Times>, exit: nat, n: nat)
    requires Timeline(rounds, times, exit) && Faithful(boards, offer, rounds, times) && n <= |rounds|
    ensures |times| == |rounds| && Timeline(rounds[..n], times[..n], exit) && Faithful(boards, offer, rounds[..n], times[..n])
  {
    hide TaskAnswer, EntriesAnswer, Forward;
  }

  /** Whatever fails and however the reads interleave with the server: once its executor has started, the
      worktree of a run that owned its task by the time the executor exited is still there when the
      attempt ends, unless a person has requeued or reassigned the task. */
  lemma {:induction false} ClaimedWorkIsKept(boards: seq<Board>, steps: seq<Step>, offer: Offer, answers: Answers, times: seq<Times>, exit: nat, owned: nat)
    requires Runs(boards, steps) && Fresh(boards[0]) && Launched(answers)
    requires Timeline(answers.rounds, times, exit) && Faithful(boards, offer, answers.rounds, times)
    requires owned <= exit && owned < |boards| && Owns(boards[owned], offer.task, offer.run)
    requires LeftAlone(boards, steps, offer.task, owned, |steps|)
    ensures LeavesWorktree(offer.run, answers)
  {
    hide LeavesWorktree, LeavesRecord, Launched, Gone, ResultOf, Timeline, Faithful, NeverHeld, Fresh, TakesAway, Orphans, Fate, After, Owns;
    AttemptIsSafe(offer.run, answers);
    if !LeavesWorktree(offer.run, answers) {
      var used := Fate(offer.run, answers).1;
      TimelinePrefix(boards, offer, answers.rounds, times, exit, used);
      ClaimedRunIsKept(boards, steps, offer, answers.rounds[..used], times[..used], exit, owned);
      assert false;
    }
  }

  /** The same for a run that wrote anything on its task, whatever people do to the task, while the task
      exists. */
  lemma {:induction false} WrittenWorkIsKept(boards: seq<Board>, steps: seq<Step>, offer: Offer, answers: Answers, times: seq<Times>, exit: nat, wrote: nat, e: Id)
    requires Runs(boards, steps) && Fresh(boards[0]) && Launched(answers)
    requires Timeline(answers.rounds, times, exit) && Faithful(boards, offer, answers.rounds, times)
    requires wrote <= exit && wrote < |boards| && e in boards[wrote].entries
    requires boards[wrote].entries[e].task == offer.task && boards[wrote].entries[e].run == Some(offer.run)
    requires forall k :: wrote <= k < |boards| ==> offer.task in boards[k].tasks
    ensures LeavesWorktree(offer.run, answers)
  {
    hide LeavesWorktree, LeavesRecord, Launched, Gone, ResultOf, Timeline, Faithful, NeverHeld, Fresh, Orphans, Fate, After;
    AttemptIsSafe(offer.run, answers);
    if !LeavesWorktree(offer.run, answers) {
      var used := Fate(offer.run, answers).1;
      TimelinePrefix(boards, offer, answers.rounds, times, exit, used);
      WritingRunIsKept(boards, steps, offer, answers.rounds[..used], times[..used], exit, wrote, e);
      assert false;
    }
  }

  /** The run owned its task at that moment, and no person has taken the task away since. */
  ghost predicate Unreleased(boards: seq<Board>, steps: seq<Step>, offer: Offer, owned: nat)
    requires owned < |boards| == |steps| + 1
  {
    Owns(boards[owned], offer.task, offer.run) && LeftAlone(boards, steps, offer.task, owned, |steps|)
  }

  /** An attempt made against a running server: when it ends, the worktree of a started run that owned its
      task is on disk, with a record, unless a person has taken the task away. */
  method AttemptOffer(host: Host, offer: Offer, answers: Answers,
                      ghost boards: seq<Board>, ghost steps: seq<Step>, ghost times: seq<Times>, ghost exit: nat)
    returns (r: AttemptResult)
    requires offer.run !in host.worktrees && offer.run !in host.records && AllReported(host.launches) && NoStreak(host.results)
    requires Runs(boards, steps) && Fresh(boards[0])
    requires Timeline(answers.rounds, times, exit) && Faithful(boards, offer, answers.rounds, times)
    modifies host
    ensures r == ResultOf(offer.run, answers)
    ensures Launched(answers) ==> forall owned :: 0 <= owned <= exit && owned < |boards| && Unreleased(boards, steps, offer, owned) ==>
      offer.run in host.worktrees && offer.run in host.records
  {
    hide LeavesWorktree, LeavesRecord, Launched, Gone, ResultOf, Timeline, Faithful, NeverHeld, Fresh, LeftAlone, Fate, After, Owns, NoStreak;
    r := host.Attempt(offer.run, answers);
    AttemptIsSafe(offer.run, answers);
    StartedIsRecorded(offer.run, answers);
    forall owned | 0 <= owned <= exit && owned < |boards| && Launched(answers) && Unreleased(boards, steps, offer, owned)
      ensures LeavesWorktree(offer.run, answers)
    {
      ClaimedWorkIsKept(boards, steps, offer, answers, times, exit, owned);
    }
  }

  lemma {:induction false} StartedIsRecorded(run: Id, answers: Answers)
    ensures Launched(answers) && LeavesWorktree(run, answers) ==> LeavesRecord(run, answers)
  {
    hide Fate;
  }
}
