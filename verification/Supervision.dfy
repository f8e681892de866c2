/** How the watcher supervises one run: `superviseRun`, `inspectRun` and `runSupervision` in
    cli/cmd/slate/watch.go, with `classifyRunEntries` in cli/cmd/slate/api.go.

    What the reads, the liveness checks and the waits answer is a script of rounds. A finite script
    is a finite part of an execution, so what is proved holds of every execution. */
module Supervision {
  import opened Basics
  import opened Boards

  const POST_EXIT_READ_ATTEMPTS := 5

  datatype TaskView = TaskView(status: Status, run: Option<Id>)
  datatype EntryView = EntryView(kind: EntryKind, run: Option<Id>)

  datatype Reading<+T> = Answer(value: T) | Failed(retryable: bool)

  /** How a round ended: the executor was found reaped, the watcher is stopping, with the executor reaped or
      not, or time passed. */
  datatype Wake = Finished | Stopping(reaped: bool) | Elapsed

  predicate Reaped(wake: Wake) {
    wake == Finished || wake == Stopping(true)
  }

  /** One round. The three flags say whether the executor had not been reaped yet before the first
      read, between the reads and after them. `stopping` says whether the watcher's context was
      cancelled when a read failed. */
  datatype Round = Round(
    aliveFirst: bool, task: Reading<TaskView>,
    aliveMiddle: bool, entries: Reading<seq<EntryView>>,
    aliveLast: bool, stopping: bool, wake: Wake)

  datatype State = Success | Blocked | Interrupted | Ambiguous | LostRace | NeverClaimed

  /** The states in which a worktree is disposable. */
  predicate Disposable(state: State) {
    state == LostRace || state == NeverClaimed
  }

  datatype Verdict = Decided(state: State) | Undecided | ReadError(retryable: bool)

  // ---------------------------------------------------------------- what one round shows

  /** Both reads succeeded. */
  predicate Completed(round: Round) {
    round.task.Answer? && round.entries.Answer?
  }

  predicate HasEntry(entries: seq<EntryView>, run: Id, kind: EntryKind) {
    EntryView(kind, Some(run)) in entries
  }

  predicate SawOwner(round: Round, run: Id) {
    Completed(round) && round.task.value.run == Some(run)
  }

  predicate SawEntries(round: Round, run: Id) {
    Completed(round) && (HasEntry(round.entries.value, run, Output) || HasEntry(round.entries.value, run, Comment))
  }

  /** The inspection completed while the executor was alive. */
  predicate SawAlive(round: Round, exited: bool) {
    Completed(round) && !exited && round.aliveLast
  }

  /** A retryable read that began while the executor was alive failed. */
  predicate MissedAlive(round: Round, exited: bool) {
    && !exited
    && (|| (round.task == Failed(true) && round.aliveFirst)
        || (round.task.Answer? && round.entries == Failed(true) && round.aliveMiddle))
  }

  /** The run's output is on the task, which is in review or already done. */
  predicate Delivered(round: Round, run: Id) {
    && Completed(round) && HasEntry(round.entries.value, run, Output)
    && (round.task.value.status == NeedsReview || round.task.value.status == Done)
  }

  /** The run commented on a task that is still being worked on. */
  predicate AsksForHelp(round: Round, run: Id) {
    Completed(round) && HasEntry(round.entries.value, run, Comment) && round.task.value.status == Working
  }

  /** The server answered a read in a way that repeating cannot change. */
  predicate ReadRefused(round: Round) {
    round.task == Failed(false) || (round.task.Answer? && round.entries == Failed(false))
  }

  method ClassifyRunEntries(entries: seq<EntryView>, run: Id) returns (hasOutput: bool, hasComment: bool)
    ensures hasOutput == HasEntry(entries, run, Output)
    ensures hasComment == HasEntry(entries, run, Comment)
  {
    hasOutput, hasComment := false, false;
    for i := 0 to |entries|
      invariant hasOutput == HasEntry(entries[..i], run, Output)
      invariant hasComment == HasEntry(entries[..i], run, Comment)
    {
      assert entries[..i + 1] == entries[..i] + [entries[i]];
      if entries[i].run == Some(run) {
        match entries[i].kind
        case Output => hasOutput := true;
        case Comment => hasComment := true;
      }
    }
    assert entries[..|entries|] == entries;
  }

  // ---------------------------------------------------------------- evidence

  /** What an inspection concludes. `trusted` says that the run was observed while it was alive and
      that no stretch of its life went unseen. */
  function Judge(task: TaskView, hasOutput: bool, hasComment: bool, exited: bool, witnessed: bool, trusted: bool): (verdict: Verdict)
    ensures !verdict.ReadError?
  {
    if hasOutput && (task.status == NeedsReview || task.status == Done) then Decided(Success)
    else if hasComment && task.status == Working then Decided(Blocked)
    else if !exited then Undecided
    else if witnessed then Decided(Interrupted)
    else if !trusted then Decided(Ambiguous)
    else if task.run.Some? then Decided(LostRace)
    else if task.status == Queued then Decided(NeverClaimed)
    else Decided(Ambiguous)
  }

  /** A result is delivered, or asked for help with, while the task shows it. A verdict that gives the
      worktree up takes an exit, no sign that the run ever held the task, and
      an unbroken view of its life; then who holds the task now tells the two apart. */
  lemma {:induction false} JudgeMeans(task: TaskView, hasOutput: bool, hasComment: bool, exited: bool, witnessed: bool, trusted: bool)
    requires hasOutput || hasComment ==> witnessed
    ensures var verdict := Judge(task, hasOutput, hasComment, exited, witnessed, trusted);
            && (verdict.Decided? && Disposable(verdict.state) ==> exited && !witnessed && trusted)
            && (exited && !witnessed && trusted ==>
                  verdict == Decided(Loser(task)))
            && (verdict == Undecided ==> !exited)
            && (verdict.Decided? && verdict.state != Success && verdict.state != Blocked ==> exited)
            && (verdict == Decided(Success) <==> hasOutput && (task.status == NeedsReview || task.status == Done))
            && (verdict == Decided(Blocked) <==> hasComment && task.status == Working)
            && (verdict == Decided(Interrupted) <==>
                  exited && witnessed && verdict != Decided(Success) && verdict != Decided(Blocked))
            && (verdict == Decided(Ambiguous) ==> exited && !witnessed)
  {
  }

  /** The four flags of a supervision. */
  datatype Flags = Flags(owned: bool, wrote: bool, observed: bool, failed: bool)

  function Noted(flags: Flags, round: Round, run: Id, exited: bool): Flags {
    Flags(flags.owned || SawOwner(round, run), flags.wrote || SawEntries(round, run),
          flags.observed || SawAlive(round, exited), flags.failed || MissedAlive(round, exited))
  }

  function VerdictOn(flags: Flags, round: Round, run: Id, exited: bool): Verdict {
    if Completed(round)
    then Judge(round.task.value, HasEntry(round.entries.value, run, Output), HasEntry(round.entries.value, run, Comment),
               exited, flags.owned || flags.wrote, flags.observed && !flags.failed)
    else ReadError(!ReadRefused(round))
  }

  lemma {:induction false} TaskUnread(flags: Flags, round: Round, run: Id, exited: bool)
    requires round.task.Failed?
    ensures Noted(flags, round, run, exited)
         == flags.(failed := flags.failed || (round.task.retryable && !exited && round.aliveFirst))
    ensures VerdictOn(Noted(flags, round, run, exited), round, run, exited) == ReadError(round.task.retryable)
  {
  }

  lemma {:induction false} EntriesUnread(flags: Flags, round: Round, run: Id, exited: bool)
    requires round.task.Answer? && round.entries.Failed?
    ensures Noted(flags, round, run, exited)
         == flags.(failed := flags.failed || (round.entries.retryable && !exited && round.aliveMiddle))
    ensures VerdictOn(Noted(flags, round, run, exited), round, run, exited) == ReadError(round.entries.retryable)
  {
  }

  lemma {:induction false} BothRead(flags: Flags, round: Round, run: Id, exited: bool)
    requires Completed(round)
    ensures var output, comment := HasEntry(round.entries.value, run, Output), HasEntry(round.entries.value, run, Comment);
            var noted := Noted(flags, round, run, exited);
            && noted == Flags(flags.owned || round.task.value.run == Some(run), flags.wrote || output || comment,
                              flags.observed || (!exited && round.aliveLast), flags.failed)
            && VerdictOn(noted, round, run, exited)
               == Judge(round.task.value, output, comment, exited, noted.owned || noted.wrote, noted.observed && !noted.failed)
  {
    hide Judge, HasEntry;
  }

  /** What a verdict on one round says about the round. */
  lemma {:induction false} RoundMeans(round: Round, run: Id, exited: bool, flags: Flags, verdict: Verdict)
    requires SawEntries(round, run) ==> flags.wrote
    requires verdict == VerdictOn(flags, round, run, exited)
    ensures verdict.ReadError? <==> !Completed(round)
    ensures verdict == ReadError(false) <==> ReadRefused(round)
    ensures verdict == Decided(Success) <==> Delivered(round, run)
    ensures verdict == Decided(Blocked) <==> AsksForHelp(round, run)
    ensures verdict == Undecided <==> Completed(round) && !exited && !Delivered(round, run) && !AsksForHelp(round, run)
    ensures verdict == Decided(Interrupted) <==>
      Completed(round) && exited && !Delivered(round, run) && !AsksForHelp(round, run) && (flags.owned || flags.wrote)
    ensures verdict.Decided? && Disposable(verdict.state) ==>
      exited && !flags.owned && !flags.wrote && flags.observed && !flags.failed
    ensures Completed(round) && exited && !flags.owned && !flags.wrote && flags.observed && !flags.failed ==>
      verdict == Decided(Loser(round.task.value))
  {
    if Completed(round) {
      JudgeMeans(round.task.value, HasEntry(round.entries.value, run, Output), HasEntry(round.entries.value, run, Comment),
                 exited, flags.owned || flags.wrote, flags.observed && !flags.failed);
    }
  }

  class RunSupervision {
    var everOwned: bool
    var everWrote: bool
    var observed: bool
    var readFailed: bool

    constructor ()
      ensures !everOwned && !everWrote && !observed && !readFailed
    {
      everOwned, everWrote, observed, readFailed := false, false, false, false;
    }

    predicate Witnessed()
      reads this
    {
      everOwned || everWrote
    }

    function Noticed(): Flags
      reads this
    {
      Flags(everOwned, everWrote, observed, readFailed)
    }

    method NoteReadFailure(alive: bool, retryable: bool)
      modifies `readFailed
      ensures readFailed == (old(readFailed) || (retryable && alive))
    {
      if !retryable {
        return;
      }
      if alive {
        readFailed := true;
      }
    }

    /** One inspection. Evidence only accumulates, and each verdict says exactly what it takes. */
    method InspectRun(run: Id, round: Round, exited: bool) returns (verdict: Verdict)
      modifies this
      ensures Noticed() == Noted(old(Noticed()), round, run, exited)
      ensures verdict == VerdictOn(Noticed(), round, run, exited)
    {
      hide Noted, VerdictOn, Judge;
      if round.task.Failed? {
        TaskUnread(Noticed(), round, run, exited);
        NoteReadFailure(!exited && round.aliveFirst, round.task.retryable);
        return ReadError(round.task.retryable);
      }
      if round.entries.Failed? {
        EntriesUnread(Noticed(), round, run, exited);
        NoteReadFailure(!exited && round.aliveMiddle, round.entries.retryable);
        return ReadError(round.entries.retryable);
      }
      var task := round.task.value;
      var hasOutput, hasComment := ClassifyRunEntries(round.entries.value, run);
      BothRead(Noticed(), round, run, exited);
      everOwned := everOwned || task.run == Some(run);
      everWrote := everWrote || hasOutput || hasComment;
      if !exited && round.aliveLast {
        observed := true;
      }
      return Judge(task, hasOutput, hasComment, exited, Witnessed(), observed && !readFailed);
    }
  }

  // ---------------------------------------------------------------- the loop

  /** The loop has seen the executor exit before round `i`. */
  ghost predicate ExitSeen(rounds: seq<Round>, i: nat)
    requires i <= |rounds|
  {
    exists j :: 0 <= j < i && Reaped(rounds[j].wake)
  }

  /** All that the rounds must show before a worktree may be thrown away: no completed inspection saw
      the run hold the task or found anything it wrote, one completed while the executor was alive,
      no retryable read begun while it was alive failed, and the last inspection completed after the
      exit was seen. */
  ghost predicate NeverHeld(rounds: seq<Round>, run: Id) {
    && rounds != [] && Completed(rounds[|rounds| - 1]) && ExitSeen(rounds, |rounds| - 1)
    && !Held(rounds, run)
    && (exists i :: 0 <= i < |rounds| && Completed(rounds[i]) && !ExitSeen(rounds, i) && rounds[i].aliveLast)
    && (forall i :: 0 <= i < |rounds| && !ExitSeen(rounds, i) ==>
          && !(rounds[i].task == Failed(true) && rounds[i].aliveFirst)
          && !(rounds[i].task.Answer? && rounds[i].entries == Failed(true) && rounds[i].aliveMiddle))
  }

  /** A completed inspection showed the run on the task, or an entry the run wrote. */
  ghost predicate Held(rounds: seq<Round>, run: Id) {
    exists i :: 0 <= i < |rounds| && Completed(rounds[i]) &&
      (rounds[i].task.value.run == Some(run) || exists e :: e in rounds[i].entries.value && e.run == Some(run))
  }

  /** How supervision ended: the state, whether the process group was reported gone, and whether the
      server's answer was terminal. `Unfinished` is a script that ends before the loop does. */
  datatype Outcome = Outcome(state: State, cleared: bool, failed: bool) | Unfinished

  /** The group is gone if the child was reaped and left nothing behind, or if stopping it worked. */
  function StopExecutorGroup(reaped: bool, remnant: bool, stops: bool): bool {
    (reaped && !remnant) || stops
  }

  // ---------------------------------------------------------------- the loop as a function

  /** How supervision goes on from round `i`, and how many rounds it takes in all. */
  function SupervisedFrom(run: Id, rounds: seq<Round>, remnant: bool, stops: bool, i: nat, flags: Flags, exited: bool, attempts: nat): (Outcome, nat)
    requires i <= |rounds|
    decreases |rounds| - i
  {
    if i == |rounds| then (Unfinished, i)
    else
      var round := rounds[i];
      var noted, left := Noted(flags, round, run, exited), exited || Reaped(round.wake);
      var verdict := VerdictOn(noted, round, run, exited);
      if verdict.ReadError? && round.stopping then (Outcome(Interrupted, StopExecutorGroup(exited, remnant, stops), false), i + 1)
      else if verdict == ReadError(false) then (Outcome(Ambiguous, StopExecutorGroup(left, remnant, stops), true), i + 1)
      else if verdict.ReadError? then
        var tried := if left then attempts + 1 else attempts;
        if tried > POST_EXIT_READ_ATTEMPTS then (Outcome(Interrupted, StopExecutorGroup(true, remnant, stops), false), i + 1)
        else SupervisedFrom(run, rounds, remnant, stops, i + 1, noted, left, tried)
      else if verdict.Decided? then (Outcome(verdict.state, StopExecutorGroup(left, remnant, stops), false), i + 1)
      else if round.wake.Stopping? then (Outcome(Interrupted, StopExecutorGroup(left, remnant, stops), false), i + 1)
      else SupervisedFrom(run, rounds, remnant, stops, i + 1, noted, left, attempts)
  }

  function Supervised(run: Id, rounds: seq<Round>, remnant: bool, stops: bool): (Outcome, nat) {
    SupervisedFrom(run, rounds, remnant, stops, 0, Flags(false, false, false, false), false, 0)
  }

  /** What some rounds show, as the four flags of a supervision summarize it. */
  ghost predicate Shown(rounds: seq<Round>, run: Id, owned: bool, wrote: bool, observed: bool, failed: bool) {
    && (owned <==> exists i :: 0 <= i < |rounds| && SawOwner(rounds[i], run))
    && (wrote <==> exists i :: 0 <= i < |rounds| && SawEntries(rounds[i], run))
    && (observed <==> exists i :: 0 <= i < |rounds| && SawAlive(rounds[i], ExitSeen(rounds, i)))
    && (failed <==> exists i :: 0 <= i < |rounds| && MissedAlive(rounds[i], ExitSeen(rounds, i)))
  }

  lemma {:induction false} ExitSeenPrefix(rounds: seq<Round>, round: Round, i: nat)
    requires i <= |rounds|
    ensures ExitSeen(rounds + [round], i) == ExitSeen(rounds, i)
  {
    assert forall j :: 0 <= j < i ==> (rounds + [round])[j] == rounds[j];
  }

  lemma {:induction false} ExitSeenNext(rounds: seq<Round>, round: Round)
    ensures ExitSeen(rounds + [round], |rounds| + 1) == (ExitSeen(rounds, |rounds|) || Reaped(round.wake))
  {
    var more := rounds + [round];
    assert more[|rounds|] == round;
    assert forall j :: 0 <= j < |rounds| ==> more[j] == rounds[j];
  }

  /** One more round adds exactly what it shows. */
  lemma {:induction false} ShownNext(rounds: seq<Round>, round: Round, run: Id, owned: bool, wrote: bool, observed: bool, failed: bool)
    requires Shown(rounds, run, owned, wrote, observed, failed)
    ensures var exited := ExitSeen(rounds, |rounds|);
            Shown(rounds + [round], run, owned || SawOwner(round, run), wrote || SawEntries(round, run),
                  observed || SawAlive(round, exited), failed || MissedAlive(round, exited))
  {
    hide ExitSeen;
    var more := rounds + [round];
    assert more[|rounds|] == round;
    forall j | 0 <= j <= |rounds| {
      ExitSeenPrefix(rounds, round, j);
    }
    assert forall j :: 0 <= j < |rounds| ==> more[j] == rounds[j] && ExitSeen(more, j) == ExitSeen(rounds, j);
    assert ExitSeen(more, |rounds|) == ExitSeen(rounds, |rounds|);
    ShownOlder(rounds, more, run);
  }

  lemma {:induction false} ShownOlder(rounds: seq<Round>, more: seq<Round>, run: Id)
    requires |more| == |rounds| + 1 && forall j :: 0 <= j < |rounds| ==> more[j] == rounds[j] && ExitSeen(more, j) == ExitSeen(rounds, j)
    ensures (exists i :: 0 <= i < |rounds| && SawOwner(rounds[i], run)) <==> (exists i :: 0 <= i < |rounds| && SawOwner(more[i], run))
    ensures (exists i :: 0 <= i < |rounds| && SawEntries(rounds[i], run)) <==> (exists i :: 0 <= i < |rounds| && SawEntries(more[i], run))
    ensures (exists i :: 0 <= i < |rounds| && SawAlive(rounds[i], ExitSeen(rounds, i))) <==> (exists i :: 0 <= i < |rounds| && SawAlive(more[i], ExitSeen(more, i)))
    ensures (exists i :: 0 <= i < |rounds| && MissedAlive(rounds[i], ExitSeen(rounds, i))) <==> (exists i :: 0 <= i < |rounds| && MissedAlive(more[i], ExitSeen(more, i)))
  {
    hide ExitSeen;
  }

  lemma {:induction false} ShownHeld(rounds: seq<Round>, run: Id, owned: bool, wrote: bool, observed: bool, failed: bool)
    requires Shown(rounds, run, owned, wrote, observed, failed)
    ensures Held(rounds, run) <==> owned || wrote
  {
    hide ExitSeen;
    forall i | 0 <= i < |rounds| && Completed(rounds[i])
      ensures SawEntries(rounds[i], run) <==> exists e :: e in rounds[i].entries.value && e.run == Some(run)
    {
      if e :| e in rounds[i].entries.value && e.run == Some(run) {
        assert e == EntryView(e.kind, Some(run)) && (e.kind == Output || e.kind == Comment);
      }
    }
  }

  /** The flags that make a worktree disposable say that the run never held the task. */
  lemma {:induction false} ShownNeverHeld(rounds: seq<Round>, run: Id, owned: bool, wrote: bool, observed: bool, failed: bool)
    requires rounds != [] && Shown(rounds, run, owned, wrote, observed, failed)
    ensures NeverHeld(rounds, run) <==>
      && Completed(rounds[|rounds| - 1]) && ExitSeen(rounds, |rounds| - 1)
      && !owned && !wrote && observed && !failed
  {
    hide ExitSeen, Held;
    ShownHeld(rounds, run, owned, wrote, observed, failed);
    ShownLife(rounds, run, owned, wrote, observed, failed);
  }

  lemma {:induction false} ShownLife(rounds: seq<Round>, run: Id, owned: bool, wrote: bool, observed: bool, failed: bool)
    requires Shown(rounds, run, owned, wrote, observed, failed)
    ensures observed <==> exists i :: 0 <= i < |rounds| && Completed(rounds[i]) && !ExitSeen(rounds, i) && rounds[i].aliveLast
    ensures !failed <==> forall i :: 0 <= i < |rounds| && !ExitSeen(rounds, i) ==>
      && !(rounds[i].task == Failed(true) && rounds[i].aliveFirst)
      && !(rounds[i].task.Answer? && rounds[i].entries == Failed(true) && rounds[i].aliveMiddle)
  {
    hide ExitSeen;
  }

  /** The last inspection of such a run showed neither it on the task nor anything it wrote. */
  lemma {:induction false} NeverHeldUnseen(rounds: seq<Round>, run: Id)
    requires NeverHeld(rounds, run)
    ensures rounds != []
    ensures var last := rounds[|rounds| - 1]; Completed(last) && !SawOwner(last, run) && !SawEntries(last, run)
  {
    hide ExitSeen;
  }

  /** Six reads in a row failed, the first of them in the round that noticed the exit or later. */
  ghost predicate GaveUp(rounds: seq<Round>, i: nat)
    requires i < |rounds|
  {
    && i >= POST_EXIT_READ_ATTEMPTS && ExitSeen(rounds, i - POST_EXIT_READ_ATTEMPTS + 1)
    && forall j :: i - POST_EXIT_READ_ATTEMPTS <= j <= i ==> !Completed(rounds[j])
  }

  /** The round ends the supervision: the run delivered or asks for help, a read failed for good or because the
      watcher is stopping, everything was read after the exit or when stopping, or reading was given up. */
  ghost predicate Final(rounds: seq<Round>, run: Id, i: nat)
    requires i < |rounds|
  {
    var round := rounds[i];
    || Delivered(round, run) || AsksForHelp(round, run) || ReadRefused(round)
    || (!Completed(round) && round.stopping)
    || (Completed(round) && (ExitSeen(rounds, i) || round.wake.Stopping?))
    || GaveUp(rounds, i)
  }

  /** None of the first `n` rounds ends the supervision. */
  ghost predicate Eventless(rounds: seq<Round>, run: Id, n: nat)
    requires n <= |rounds|
  {
    forall i :: 0 <= i < n ==> !Final(rounds, run, i)
  }

  /** `attempts` counts the rounds made since the exit was noticed, which all failed to read. */
  ghost predicate Counted(rounds: seq<Round>, n: nat, attempts: nat)
    requires n <= |rounds|
  {
    && attempts <= n
    && (attempts > 0 ==> ExitSeen(rounds, n - attempts + 1))
    && (forall j :: n - attempts <= j < n ==> !Completed(rounds[j]))
    && (forall j :: 0 <= j < n && Reaped(rounds[j].wake) ==> n <= j + attempts + (if Completed(rounds[j]) then 1 else 0))
  }

  lemma {:induction false} CountedBeforeExit(rounds: seq<Round>, n: nat, attempts: nat)
    requires n < |rounds| && Counted(rounds, n, attempts) && !ExitSeen(rounds, n)
    ensures attempts == 0
    ensures Completed(rounds[n]) || !Reaped(rounds[n].wake) ==> Counted(rounds, n + 1, 0)
  {
  }

  lemma {:induction false} CountedFailure(rounds: seq<Round>, n: nat, attempts: nat)
    requires n < |rounds| && Counted(rounds, n, attempts) && !Completed(rounds[n])
    requires ExitSeen(rounds, n) || Reaped(rounds[n].wake)
    ensures Counted(rounds, n + 1, attempts + 1)
  {
    if attempts == 0 && !ExitSeen(rounds, n) {
      assert ExitSeen(rounds, n + 1);
    }
  }

  /** Reading is given up with the sixth failure, not before and not later. */
  lemma {:induction false} CountedGaveUp(rounds: seq<Round>, n: nat, attempts: nat)
    requires 0 < n <= |rounds| && Counted(rounds, n, attempts) && attempts <= POST_EXIT_READ_ATTEMPTS + 1
    ensures GaveUp(rounds, n - 1) <==> attempts == POST_EXIT_READ_ATTEMPTS + 1
  {
  }

  /** All that a finished supervision says about the rounds it took: it ends with the first round that is
      final, and what it reports is fixed by what the rounds show. */
  ghost predicate SupervisionOk(run: Id, rounds: seq<Round>, remnant: bool, stops: bool, outcome: Outcome, used: nat) {
    && used <= |rounds|
    && (outcome.Unfinished? ==> used == |rounds| && Eventless(rounds, run, used))
    && (outcome.Outcome? ==>
          && used > 0 && Eventless(rounds, run, used - 1) && Final(rounds, run, used - 1)
          && EndOk(run, rounds[..used], outcome)
          && (outcome.cleared <==> stops || (KnownReaped(rounds[..used]) && !remnant)))
  }

  /** Who holds the task of a run that never did tells a lost race from an executor that never claimed. */
  function Loser(task: TaskView): State {
    if task.run.Some? then LostRace else if task.status == Queued then NeverClaimed else Ambiguous
  }

  /** The end of a supervision against its rounds. A result or a request for help is reported if and only if the
      last round shows it; a worktree becomes disposable only on the evidence of `NeverHeld`, and on that
      evidence who holds the task decides; an interruption is a reading that did not come about, a stop before
      the exit, or the exit of a run that held its task. Everything else is ambiguous. */
  ghost predicate EndOk(run: Id, rounds: seq<Round>, outcome: Outcome)
    requires outcome.Outcome? && rounds != []
  {
    var last := |rounds| - 1;
    var round := rounds[last];
    && (outcome.failed <==> ReadRefused(round) && !round.stopping)
    && (outcome.state == Success <==> Delivered(round, run))
    && (outcome.state == Blocked <==> AsksForHelp(round, run))
    && (outcome.state == Interrupted <==>
          || (!Completed(round) && !outcome.failed)
          || (Completed(round) && !Delivered(round, run) && !AsksForHelp(round, run) && (Held(rounds, run) || !ExitSeen(rounds, last))))
    && (Disposable(outcome.state) ==> !outcome.failed && NeverHeld(rounds, run))
    && (NeverHeld(rounds, run) ==> outcome.state == Loser(round.task.value))
  }

  /** The executor was known to be reaped when its group was stopped: a failed reading of a watcher that is
      stopping does not look again. */
  ghost predicate KnownReaped(rounds: seq<Round>)
    requires rounds != []
  {
    var last := |rounds| - 1;
    ExitSeen(rounds, if !Completed(rounds[last]) && rounds[last].stopping then last else last + 1)
  }

  /** A supervision ends within six reads of noticing the exit. */
  lemma {:induction false} EndsPromptly(run: Id, rounds: seq<Round>, remnant: bool, stops: bool, outcome: Outcome, used: nat, j: nat)
    requires SupervisionOk(run, rounds, remnant, stops, outcome, used) && j < used && Reaped(rounds[j].wake)
    ensures used <= j + 1 + POST_EXIT_READ_ATTEMPTS + (if Completed(rounds[j]) then 1 else 0)
  {
    hide EndOk, KnownReaped;
    var first := if Completed(rounds[j]) then j + 1 else j;
    var i := first + POST_EXIT_READ_ATTEMPTS;
    if i + 1 < used {
      assert !Final(rounds, run, i) && ExitSeen(rounds, first + 1);
      forall k | first <= k <= i
        ensures !Completed(rounds[k])
      {
        assert !Final(rounds, run, k);
        assert k > j ==> ExitSeen(rounds, k);
      }
    }
  }

  /** Where supervision stands before round `i`. */
  ghost predicate Underway(run: Id, rounds: seq<Round>, i: nat, flags: Flags, exited: bool, attempts: nat)
    requires i <= |rounds|
  {
    && attempts <= POST_EXIT_READ_ATTEMPTS
    && Shown(rounds[..i], run, flags.owned, flags.wrote, flags.observed, flags.failed)
    && exited == ExitSeen(rounds, i) && Eventless(rounds, run, i) && Counted(rounds, i, attempts)
  }

  lemma {:induction false} SupervisedFromMeans(run: Id, rounds: seq<Round>, remnant: bool, stops: bool, i: nat, flags: Flags, exited: bool, attempts: nat)
    requires i <= |rounds| && Underway(run, rounds, i, flags, exited, attempts)
    ensures var (outcome, used) := SupervisedFrom(run, rounds, remnant, stops, i, flags, exited, attempts);
            SupervisionOk(run, rounds, remnant, stops, outcome, used)
    decreases |rounds| - i
  {
    hide Shown, ExitSeen, VerdictOn, Noted, Counted, Eventless, SupervisionOk;
    if i == |rounds| {
      NothingMore(run, rounds, remnant, stops);
    } else {
      var round := rounds[i];
      var noted, left := Noted(flags, round, run, exited), exited || Reaped(round.wake);
      var verdict := VerdictOn(noted, round, run, exited);
      var tried := if verdict.ReadError? && left then attempts + 1 else attempts;
      if (verdict == ReadError(true) && !round.stopping && tried <= POST_EXIT_READ_ATTEMPTS) || (verdict == Undecided && !round.wake.Stopping?) {
        RoundKeeps(run, rounds, i, flags, exited, attempts);
        SupervisedFromMeans(run, rounds, remnant, stops, i + 1, noted, left, tried);
      } else {
        RoundEnds(run, rounds, remnant, stops, i, flags, exited, attempts);
      }
    }
  }

  lemma {:induction false} NothingMore(run: Id, rounds: seq<Round>, remnant: bool, stops: bool)
    requires Eventless(rounds, run, |rounds|)
    ensures SupervisionOk(run, rounds, remnant, stops, Unfinished, |rounds|)
  {
    hide Eventless;
  }

  /** What one more round shows, whether or not it ends the supervision. */
  lemma {:induction false} RoundShows(run: Id, rounds: seq<Round>, i: nat, flags: Flags, exited: bool)
    requires i < |rounds| && exited == ExitSeen(rounds, i)
    requires Shown(rounds[..i], run, flags.owned, flags.wrote, flags.observed, flags.failed)
    ensures var noted := Noted(flags, rounds[i], run, exited);
            && Shown(rounds[..i + 1], run, noted.owned, noted.wrote, noted.observed, noted.failed)
            && (SawEntries(rounds[i], run) ==> noted.wrote)
    ensures ExitSeen(rounds, i + 1) == (exited || Reaped(rounds[i].wake))
    ensures ExitSeen(rounds[..i + 1], i) == exited && ExitSeen(rounds[..i + 1], i + 1) == ExitSeen(rounds, i + 1)
  {
    hide Shown, ExitSeen, SawOwner, SawEntries, SawAlive, MissedAlive;
    ExitSeenTake(rounds, i, i);
    ExitSeenTake(rounds, i + 1, i);
    ExitSeenTake(rounds, i + 1, i + 1);
    ShownNext(rounds[..i], rounds[i], run, flags.owned, flags.wrote, flags.observed, flags.failed);
    ExitSeenNext(rounds[..i], rounds[i]);
    assert rounds[..i + 1] == rounds[..i] + [rounds[i]];
  }

  lemma {:induction false} ExitSeenTake(rounds: seq<Round>, n: nat, i: nat)
    requires i <= n <= |rounds|
    ensures ExitSeen(rounds[..n], i) == ExitSeen(rounds, i)
  {
    assert forall j :: 0 <= j < i ==> rounds[..n][j] == rounds[j];
  }

  /** A round that does not end the supervision is not final, and carries everything over to the next. */
  lemma {:induction false} RoundKeeps(run: Id, rounds: seq<Round>, i: nat, flags: Flags, exited: bool, attempts: nat)
    requires i < |rounds| && Underway(run, rounds, i, flags, exited, attempts)
    requires var round, verdict := rounds[i], VerdictOn(Noted(flags, rounds[i], run, exited), rounds[i], run, exited);
             var tried := if verdict.ReadError? && (exited || Reaped(round.wake)) then attempts + 1 else attempts;
             (verdict == ReadError(true) && !round.stopping && tried <= POST_EXIT_READ_ATTEMPTS) || (verdict == Undecided && !round.wake.Stopping?)
    ensures var noted, left := Noted(flags, rounds[i], run, exited), exited || Reaped(rounds[i].wake);
            var verdict := VerdictOn(noted, rounds[i], run, exited);
            Underway(run, rounds, i + 1, noted, left, if verdict.ReadError? && left then attempts + 1 else attempts)
  {
    hide Shown, ExitSeen, VerdictOn, Counted, Delivered, AsksForHelp, ReadRefused, SawOwner, SawEntries, SawAlive, MissedAlive, Completed, GaveUp;
    var round := rounds[i];
    var noted, left := Noted(flags, round, run, exited), exited || Reaped(round.wake);
    var verdict := VerdictOn(noted, round, run, exited);
    RoundShows(run, rounds, i, flags, exited);
    RoundMeans(round, run, exited, noted, verdict);
    if verdict.ReadError? && left {
      CountedFailure(rounds, i, attempts);
      CountedGaveUp(rounds, i + 1, attempts + 1);
    } else {
      CountedBeforeExit(rounds, i, attempts);
      CountedGaveUp(rounds, i + 1, 0);
    }
  }

  /** A round that ends the supervision is final, and the outcome is what it and the rounds before it show. */
  lemma {:induction false} RoundEnds(run: Id, rounds: seq<Round>, remnant: bool, stops: bool, i: nat, flags: Flags, exited: bool, attempts: nat)
    requires i < |rounds| && Underway(run, rounds, i, flags, exited, attempts)
    requires var round, verdict := rounds[i], VerdictOn(Noted(flags, rounds[i], run, exited), rounds[i], run, exited);
             var tried := if verdict.ReadError? && (exited || Reaped(round.wake)) then attempts + 1 else attempts;
             !(verdict == ReadError(true) && !round.stopping && tried <= POST_EXIT_READ_ATTEMPTS) && !(verdict == Undecided && !round.wake.Stopping?)
    ensures var (outcome, used) := SupervisedFrom(run, rounds, remnant, stops, i, flags, exited, attempts);
            SupervisionOk(run, rounds, remnant, stops, outcome, used)
  {
    hide Shown, NeverHeld, Held, ExitSeen, VerdictOn, Noted, Counted, Eventless, Delivered, AsksForHelp, ReadRefused, Completed, GaveUp;
    var round := rounds[i];
    var noted, left := Noted(flags, round, run, exited), exited || Reaped(round.wake);
    var verdict := VerdictOn(noted, round, run, exited);
    RoundShows(run, rounds, i, flags, exited);
    RoundMeans(round, run, exited, noted, verdict);
    if verdict == ReadError(true) && !round.stopping {
      CountedFailure(rounds, i, attempts);
      CountedGaveUp(rounds, i + 1, attempts + 1);
    }
    ShownNeverHeld(rounds[..i + 1], run, noted.owned, noted.wrote, noted.observed, noted.failed);
    ShownHeld(rounds[..i + 1], run, noted.owned, noted.wrote, noted.observed, noted.failed);
    assert rounds[..i + 1][i] == round;
  }

  lemma {:induction false} SupervisedMeans(run: Id, rounds: seq<Round>, remnant: bool, stops: bool)
    ensures var (outcome, used) := Supervised(run, rounds, remnant, stops);
            SupervisionOk(run, rounds, remnant, stops, outcome, used)
  {
    hide SupervisionOk, Shown, ExitSeen;
    NothingShown(rounds, run);
    assert rounds[..0] == [];
    SupervisedFromMeans(run, rounds, remnant, stops, 0, Flags(false, false, false, false), false, 0);
  }

  /** Supervision of one run. `remnant` is what was left of the process group when the child was
      reaped, `stops` whether signalling it ends it. */
  method SuperviseRun(run: Id, rounds: seq<Round>, remnant: bool, stops: bool) returns (outcome: Outcome, ghost used: nat)
    ensures (outcome, used) == Supervised(run, rounds, remnant, stops)
    ensures SupervisionOk(run, rounds, remnant, stops, outcome, used)
  {
    hide SupervisionOk, Noted, VerdictOn, Judge;
    SupervisedMeans(run, rounds, remnant, stops);
    var supervision := new RunSupervision();
    var exited, postExitAttempts := false, 0;
    used := 0;
    for i := 0 to |rounds|
      invariant fresh(supervision) && used == i && 0 <= postExitAttempts <= POST_EXIT_READ_ATTEMPTS
      invariant Supervised(run, rounds, remnant, stops)
             == SupervisedFrom(run, rounds, remnant, stops, i, supervision.Noticed(), exited, postExitAttempts)
    {
      var round := rounds[i];
      used := i + 1;
      RoundDecides(supervision.Noticed(), round, run, exited);
      var verdict := supervision.InspectRun(run, round, exited);
      if verdict.ReadError? {
        if round.stopping {
          return Outcome(Interrupted, StopExecutorGroup(exited, remnant, stops), false), used;
        }
        if !verdict.retryable {
          return Outcome(Ambiguous, StopExecutorGroup(exited || Reaped(round.wake), remnant, stops), true), used;
        }
        if Reaped(round.wake) {
          exited := true;
        }
        if exited {
          postExitAttempts := postExitAttempts + 1;
          if postExitAttempts > POST_EXIT_READ_ATTEMPTS {
            return Outcome(Interrupted, StopExecutorGroup(true, remnant, stops), false), used;
          }
        }
      } else if verdict.Decided? {
        return Outcome(verdict.state, StopExecutorGroup(exited || Reaped(round.wake), remnant, stops), false), used;
      } else {
        // An inspection made after the exit was seen always decides.
        match round.wake
        case Finished => exited := true;
        case Stopping(reaped) => return Outcome(Interrupted, StopExecutorGroup(reaped, remnant, stops), false), used;
        case Elapsed =>
      }
    }
    return Unfinished, used;
  }

  /** An undecided inspection was made before the exit was seen. */
  lemma {:induction false} RoundDecides(flags: Flags, round: Round, run: Id, exited: bool)
    ensures VerdictOn(Noted(flags, round, run, exited), round, run, exited) == Undecided ==> !exited
  {
  }

  lemma {:induction false} NothingShown(rounds: seq<Round>, run: Id)
    ensures Shown([], run, false, false, false, false) && !ExitSeen([], 0)
    ensures Eventless(rounds, run, 0) && Counted(rounds, 0, 0) && !ExitSeen(rounds, 0)
  {
  }
}
