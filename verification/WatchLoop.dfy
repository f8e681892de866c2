/** One attempt and the loop around it: `attempt`, `run` and `recoverableAttemptError` in
    cli/cmd/slate/watch.go over the run registry of cli/cmd/slate/registry.go.

    Every git, file, process and registry step may fail; which ones do is an input. Which executors
    were started, and whether each was reported gone, is logged where it happens. */
module WatchLoop {
  import opened Basics
  import opened Boards
  import opened Supervision
  import RetentionCap

  const LAUNCH_FAILURE_LIMIT := 5

  /** The part of an error that decides what the loop does next. A local failure is what the retry
      classifier calls retryable: it is no answer of the server. */
  datatype AttemptError = GroupSurvived | RecordRemoval | Undiscoverable | ServerTerminal | Cancelled | Local

  predicate Recoverable(error: AttemptError) {
    error == Local
  }

  datatype AttemptResult =
    | Reached(state: State)
    | Failing(error: AttemptError)
    /** The script of answers ended while the run was still supervised. */
    | Pending

  /** The loop ends on it. */
  predicate Ends(r: AttemptResult) {
    r.Failing? && !Recoverable(r.error)
  }

  /** The attempt counts as a failure to launch: it did not get an executor going, or the executor exited
      without ever claiming. */
  predicate Fails(r: AttemptResult) {
    r == Failing(Local) || r == Reached(NeverClaimed)
  }

  datatype RecordState = Launching | Executing | Ended(state: State)

  /** Creating a worktree that fails cleans up after itself; if that fails too, the worktree may stay. */
  datatype Creation = Created | Uncreated(cancelled: bool) | LeftBehind(cancelled: bool)

  /** Discarding removes the worktree and then its branch; it fails if either stays. */
  datatype Discard = Discarded | BranchLeft | WorktreeLeft

  /** What the steps of one attempt answer. No step is made twice but saving, which has one answer for
      each place it is called from. `cancelled` says that discarding failed because the watcher is
      stopping. */
  datatype Answers = Answers(
    created: Creation,
    saved: bool, savedAgain: bool, savedExecuting: bool, savedLast: bool,
    retained: Option<nat>,
    discard: Discard, cancelled: bool, removed: bool, started: bool,
    remnant: bool, stops: bool,
    rounds: seq<Round>)

  // ---------------------------------------------------------------- what the answers decide

  predicate OverCap(answers: Answers) {
    answers.retained.Some? && answers.retained.value > RetentionCap.MAX_RETAINED_RUNS
  }

  /** An executor starts. */
  predicate Launched(answers: Answers) {
    answers.created == Created && answers.saved && !OverCap(answers) && answers.started
  }

  /** How the supervision of a recorded executor ends, and after how many rounds. */
  function Fate(run: Id, answers: Answers): (Outcome, nat) {
    Supervised(run, answers.rounds, answers.remnant, answers.stops)
  }

  /** The process group of a started executor is reported gone. */
  predicate Gone(run: Id, answers: Answers) {
    if !answers.savedExecuting then answers.stops
    else Fate(run, answers).0.Outcome? && Fate(run, answers).0.cleared
  }

  /** The worktree of a started executor is given up. */
  predicate GivenUp(run: Id, answers: Answers) {
    && answers.savedExecuting
    && var outcome := Fate(run, answers).0;
       outcome.Outcome? && !outcome.failed && outcome.cleared && Disposable(outcome.state)
  }

  /** A worktree is on disk when the attempt ends. */
  predicate LeavesWorktree(run: Id, answers: Answers) {
    || answers.created.LeftBehind?
    || (answers.created == Created && (answers.discard == WorktreeLeft || (Launched(answers) && !GivenUp(run, answers))))
  }

  /** A record is in the registry when the attempt ends. */
  predicate LeavesRecord(run: Id, answers: Answers) {
    && answers.created == Created
    && if answers.saved
       then (Launched(answers) && !GivenUp(run, answers)) || answers.discard != Discarded || !answers.removed
       else answers.discard != Discarded && answers.savedAgain
  }

  function ResultOf(run: Id, answers: Answers): AttemptResult {
    var discarded := answers.discard == Discarded;
    if answers.created != Created then Failing(if answers.created.cancelled then Cancelled else Local)
    else if !answers.saved then Failing(if discarded || answers.savedAgain then Local else Undiscoverable)
    else if !Launched(answers) then
      if discarded then Failing(if answers.removed then Local else RecordRemoval)
      else Failing(if OverCap(answers) && answers.cancelled then Cancelled else Local)
    else if !answers.savedExecuting then Failing(if answers.stops then Local else GroupSurvived)
    else
      var outcome := Fate(run, answers).0;
      if outcome.Unfinished? then Pending
      else if GivenUp(run, answers) then
        if !discarded then Reached(Ambiguous) else if answers.removed then Reached(outcome.state) else Failing(RecordRemoval)
      else if outcome.failed then Failing(ServerTerminal)
      else if outcome.cleared then Reached(outcome.state)
      else Failing(GroupSurvived)
  }

  /** What the record says when the attempt ends and leaves one. */
  function RecordLeft(run: Id, answers: Answers): RecordState {
    if !answers.saved then Ended(Ambiguous)
    else if !Launched(answers) then if answers.discard != Discarded && answers.savedAgain then Ended(Ambiguous) else Launching
    else if !answers.savedExecuting then Launching
    else
      var outcome := Fate(run, answers).0;
      if outcome.Unfinished? || !answers.savedLast then Executing
      else if !GivenUp(run, answers) then Ended(outcome.state)
      else if answers.discard != Discarded then Ended(Ambiguous)
      else Executing
  }

  /** A worktree is left that no record leads to. */
  predicate Orphans(answers: Answers) {
    || answers.created.LeftBehind?
    || (answers.created == Created && !answers.saved && answers.discard == WorktreeLeft && !answers.savedAgain)
  }

  /** Whatever subset of steps fails. A worktree is left without a record if and only if creating it failed
      and so did the clean-up, or all of saving, discarding and saving again failed; the latter ends
      the loop. A discarded worktree leaves a record behind only with an error that ends the loop. An
      executor not reported gone ends the loop. A started executor's worktree is removed only once
      the executor is gone, and on the evidence that its run never held the task. */
  lemma {:induction false} AttemptIsSafe(run: Id, answers: Answers)
    ensures LeavesWorktree(run, answers) && !LeavesRecord(run, answers) <==> Orphans(answers)
    ensures Orphans(answers) && answers.created == Created ==> ResultOf(run, answers) == Failing(Undiscoverable)
    ensures !LeavesWorktree(run, answers) && LeavesRecord(run, answers) && answers.discard == Discarded ==>
      ResultOf(run, answers) == Failing(RecordRemoval)
    ensures Launched(answers) && !Gone(run, answers) ==>
      ResultOf(run, answers) in {Failing(GroupSurvived), Failing(ServerTerminal), Pending}
    ensures Launched(answers) && !LeavesWorktree(run, answers) ==>
      && Gone(run, answers) && Fate(run, answers).1 <= |answers.rounds|
      && NeverHeld(answers.rounds[..Fate(run, answers).1], run)
  {
    hide Supervised, NeverHeld, Eventless, Final, KnownReaped, Held;
    SupervisedMeans(run, answers.rounds, answers.remnant, answers.stops);
  }

  /** What a result tells of the supervision that led to it. */
  ghost predicate Told(run: Id, answers: Answers, r: AttemptResult, outcome: Outcome, used: nat)
    requires used <= |answers.rounds| && (outcome.Outcome? ==> used > 0)
  {
    var supervised := Launched(answers) && answers.savedExecuting && outcome.Outcome?;
    && (r.Pending? <==> Launched(answers) && answers.savedExecuting && outcome.Unfinished?)
    && (!supervised ==> !r.Reached? && r != Failing(ServerTerminal))
    && (supervised ==>
          var last, gone := answers.rounds[used - 1], outcome.cleared;
          var disposed := gone && NeverHeld(answers.rounds[..used], run) && answers.discard == Discarded && answers.removed;
          && (r == Reached(Success) <==> gone && Delivered(last, run))
          && (r == Reached(Blocked) <==> gone && AsksForHelp(last, run))
          && (r == Failing(ServerTerminal) <==> ReadRefused(last) && !last.stopping)
          && (r == Reached(LostRace) <==> disposed && last.task.value.run.Some?)
          && (r == Reached(NeverClaimed) <==> disposed && last.task.value.run.None? && last.task.value.status == Queued))
  }

  /** An executor that is not reported gone ends the loop. */
  lemma {:induction false} SurvivorEnds(run: Id, answers: Answers)
    ensures Launched(answers) && !Gone(run, answers) ==> Ends(ResultOf(run, answers)) || ResultOf(run, answers).Pending?
  {
    hide ResultOf, Launched, Gone, LeavesWorktree, LeavesRecord, Orphans, Fate, NeverHeld;
    AttemptIsSafe(run, answers);
  }

  /** The result of an attempt tells what happened. A result or a request for help is reported if and only if the
      last round of supervision shows it and the executor is gone; a lost race or an executor that never
      claimed, only on the evidence that the run never held the task and once nothing of it is left; a
      terminal answer, only if the server gave one; and each local error names its failures exactly. */
  lemma {:induction false} AttemptReports(run: Id, answers: Answers)
    ensures var (outcome, used) := Fate(run, answers);
            used <= |answers.rounds| && (outcome.Outcome? ==> used > 0) && Told(run, answers, ResultOf(run, answers), outcome, used)
  {
    hide Supervised, NeverHeld, Eventless, Final, KnownReaped, Held, ReadRefused, Delivered, AsksForHelp;
    SupervisedMeans(run, answers.rounds, answers.remnant, answers.stops);
    Exclusive(run, answers);
  }

  lemma {:induction false} Exclusive(run: Id, answers: Answers)
    ensures forall i :: 0 <= i < |answers.rounds| ==>
      var round := answers.rounds[i];
      !(Delivered(round, run) && AsksForHelp(round, run)) && !((Delivered(round, run) || AsksForHelp(round, run)) && ReadRefused(round))
  {
  }

  /** An executor starts exactly if its worktree and record are there and at most ten records were counted, or the
      count failed; and each error of an attempt names its failures exactly. */
  lemma {:induction false} AttemptErrors(run: Id, answers: Answers)
    ensures Launched(answers) <==>
      answers.created == Created && answers.saved && answers.started && (answers.retained.Some? ==> answers.retained.value <= 10)
    ensures var r, created, kept := ResultOf(run, answers), answers.created == Created, answers.discard != Discarded;
      && (r == Failing(Undiscoverable) <==> created && !answers.saved && kept && !answers.savedAgain)
      && (r == Failing(RecordRemoval) <==> created && answers.saved && !kept && !answers.removed && (Launched(answers) ==> GivenUp(run, answers)))
      && (r == Failing(Cancelled) <==>
            || (!created && answers.created.cancelled)
            || (created && answers.saved && kept && answers.cancelled && answers.retained.Some? && answers.retained.value > 10))
      && (r == Failing(GroupSurvived) <==> Launched(answers) && !Gone(run, answers) && r != Failing(ServerTerminal) && !r.Pending?)
      && (Launched(answers) && r == Failing(Local) <==> Launched(answers) && !answers.savedExecuting && answers.stops)
  {
    hide Fate;
  }

  /** What a record tells. One that says a run delivered, asked for help or was cut off agrees with the result,
      whether or not the executor could be stopped; one that says the run never held the task is there only
      because the executor survives; and if everything could be saved, the record of a run whose
      attempt is over is no longer that of a running one, unless removing it failed. */
  lemma {:induction false} RecordTells(run: Id, answers: Answers)
    requires LeavesRecord(run, answers)
    ensures var left, r := RecordLeft(run, answers), ResultOf(run, answers);
      && (left.Ended? && r.Reached? ==> r == Reached(left.state))
      && (left.Ended? && Disposable(left.state) ==> r == Failing(GroupSurvived))
      && (left.Ended? && Launched(answers) ==> answers.savedExecuting && answers.savedLast)
      && (answers.savedAgain && answers.savedExecuting && answers.savedLast && r != Failing(RecordRemoval) && !r.Pending? ==> left.Ended?)
      && (left == Executing ==> Launched(answers) && answers.savedExecuting)
      && (!Launched(answers) && answers.saved ==> (left.Ended? <==> answers.discard != Discarded && answers.savedAgain))
  {
    hide Supervised, NeverHeld, Eventless, Final, KnownReaped, Held, ReadRefused, Delivered, AsksForHelp;
    SupervisedMeans(run, answers.rounds, answers.remnant, answers.stops);
  }

  /** A recoverable failure can leave a worktree that no record leads to: a checkout that fails and cannot be
      cleaned up either. */
  lemma CreationCanOrphan(run: Id, answers: Answers)
    requires answers.created == LeftBehind(false)
    ensures LeavesWorktree(run, answers) && !LeavesRecord(run, answers) && ResultOf(run, answers) == Failing(Local)
  {
  }

  /** What follows a start, case by case. */
  lemma {:induction false} AfterStart(run: Id, answers: Answers)
    requires Launched(answers)
    ensures var outcome, discard := Fate(run, answers).0, answers.discard;
      if !answers.savedExecuting then
        && ResultOf(run, answers) == Failing(if answers.stops then Local else GroupSurvived)
        && LeavesWorktree(run, answers) && LeavesRecord(run, answers) && Gone(run, answers) == answers.stops
        && RecordLeft(run, answers) == Launching
      else if outcome.Unfinished? then
        && ResultOf(run, answers).Pending? && LeavesWorktree(run, answers) && LeavesRecord(run, answers) && !Gone(run, answers)
        && RecordLeft(run, answers) == Executing
      else
        && Gone(run, answers) == outcome.cleared
        && if !outcome.failed && outcome.cleared && Disposable(outcome.state) then
             && (LeavesWorktree(run, answers) <==> discard == WorktreeLeft)
             && (LeavesRecord(run, answers) <==> discard != Discarded || !answers.removed)
             && RecordLeft(run, answers) == (if answers.savedLast && discard != Discarded then Ended(Ambiguous) else Executing)
             && ResultOf(run, answers) == (if discard != Discarded then Reached(Ambiguous)
                                           else if answers.removed then Reached(outcome.state) else Failing(RecordRemoval))
           else
             && LeavesWorktree(run, answers) && LeavesRecord(run, answers)
             && RecordLeft(run, answers) == (if answers.savedLast then Ended(outcome.state) else Executing)
             && ResultOf(run, answers) == (if outcome.failed then Failing(ServerTerminal)
                                           else if outcome.cleared then Reached(outcome.state) else Failing(GroupSurvived))
  {
    hide Fate;
  }

  // ---------------------------------------------------------------- the machine it runs on

  /** Every executor started so far was reported gone. */
  ghost predicate AllReported(launches: seq<bool>) {
    forall i :: 0 <= i < |launches| ==> launches[i]
  }

  class Host {
    /** The worktrees on disk and the run records in the registry. */
    var worktrees: set<Id>
    var records: map<Id, RecordState>
    /** For every executor that was started, whether its process group was reported gone. */
    ghost var launches: seq<bool>
    /** The result of every attempt. */
    ghost var results: seq<AttemptResult>

    constructor ()
      ensures worktrees == {} && records == map[] && launches == [] && results == []
    {
      worktrees, records, launches, results := {}, map[], [], [];
    }

    method Save(run: Id, state: RecordState, ok: bool) returns (saved: bool)
      modifies `records
      ensures saved == ok
      ensures records == if ok then old(records)[run := state] else old(records)
    {
      if ok {
        records := records[run := state];
      }
      return ok;
    }

    method DiscardWorktree(run: Id, discard: Discard) returns (ok: bool)
      modifies `worktrees
      ensures ok <==> discard == Discarded
      ensures worktrees == if discard == WorktreeLeft then old(worktrees) else old(worktrees) - {run}
    {
      if discard != WorktreeLeft {
        worktrees := worktrees - {run};
      }
      return discard == Discarded;
    }

    method RemoveRecord(run: Id, ok: bool) returns (removed: bool)
      modifies `records
      ensures removed == ok
      ensures records == if ok then old(records) - {run} else old(records)
    {
      if ok {
        records := records - {run};
      }
      return ok;
    }

    /** Starts an executor. None may start while an earlier one has not been reported gone. */
    method StartExecutor(ok: bool) returns (started: bool)
      requires AllReported(launches)
      modifies `launches
      ensures started == ok
      ensures launches == if ok then old(launches) + [false] else old(launches)
    {
      if ok {
        launches := launches + [false];
      }
      return ok;
    }

    /** What is learned about the process group of the executor started last. */
    ghost method Report(gone: bool)
      requires launches != []
      modifies `launches
      ensures launches == old(launches)[..|old(launches)| - 1] + [gone]
    {
      launches := launches[..|launches| - 1] + [gone];
    }

    /** Runs one candidate end to end, after no more than four failures in a row. */
    method Attempt(run: Id, answers: Answers) returns (r: AttemptResult)
      requires run !in worktrees && run !in records && AllReported(launches) && NoStreak(results)
      modifies this
      ensures r == ResultOf(run, answers)
      ensures worktrees - {run} == old(worktrees) && (run in worktrees <==> LeavesWorktree(run, answers))
      ensures records - {run} == old(records) && (run in records <==> LeavesRecord(run, answers))
      ensures run in records ==> records[run] == RecordLeft(run, answers)
      ensures launches == old(launches) + (if Launched(answers) then [Gone(run, answers)] else [])
      ensures results == old(results) + [r]
    {
      hide NoStreak, Fate;
      results := results + [ResultOf(run, answers)];
      if answers.created != Created {
        if answers.created.LeftBehind? {
          worktrees := worktrees + {run};
        }
        return Failing(if answers.created.cancelled then Cancelled else Local);
      }
      worktrees := worktrees + {run};
      var saved := Save(run, Launching, answers.saved);
      if !saved {
        var discarded := DiscardWorktree(run, answers.discard);
        if !discarded {
          var retained := Save(run, Ended(Ambiguous), answers.savedAgain);
          return Failing(if retained then Local else Undiscoverable);
        }
        return Failing(Local);
      }
      if OverCap(answers) {
        r := GiveUp(run, answers, if answers.cancelled then Cancelled else Local);
        return r;
      }
      var started := StartExecutor(answers.started);
      if !started {
        r := GiveUp(run, answers, Local);
        return r;
      }
      r := Oversee(run, answers);
    }

    /** Follows a started executor to its end. */
    method Oversee(run: Id, answers: Answers) returns (r: AttemptResult)
      requires run in worktrees && run in records && records[run] == Launching && Launched(answers)
      requires launches != [] && !launches[|launches| - 1]
      modifies `worktrees, `records, `launches
      ensures r == ResultOf(run, answers)
      ensures worktrees - {run} == old(worktrees) - {run} && (run in worktrees <==> LeavesWorktree(run, answers))
      ensures records - {run} == old(records) - {run} && (run in records <==> LeavesRecord(run, answers))
      ensures run in records ==> records[run] == RecordLeft(run, answers)
      ensures launches == old(launches)[..|old(launches)| - 1] + [Gone(run, answers)]
    {
      hide SupervisionOk, Supervised, ResultOf, LeavesWorktree, LeavesRecord, Gone, RecordLeft;
      AfterStart(run, answers);
      var executing := Save(run, Executing, answers.savedExecuting);
      if !executing {
        Report(answers.stops);
        return Failing(if answers.stops then Local else GroupSurvived);
      }
      var outcome, _ := SuperviseRun(run, answers.rounds, answers.remnant, answers.stops);
      assert outcome == Fate(run, answers).0;
      if outcome.Unfinished? {
        Report(false);
        return Pending;
      }
      Report(outcome.cleared);
      if !outcome.failed && outcome.cleared && Disposable(outcome.state) {
        var discarded := DiscardWorktree(run, answers.discard);
        if !discarded {
          var _ := Save(run, Ended(Ambiguous), answers.savedLast);
          return Reached(Ambiguous);
        }
        var removed := RemoveRecord(run, answers.removed);
        return if removed then Reached(outcome.state) else Failing(RecordRemoval);
      }
      var _ := Save(run, Ended(outcome.state), answers.savedLast);
      if outcome.failed {
        return Failing(ServerTerminal);
      }
      return if outcome.cleared then Reached(outcome.state) else Failing(GroupSurvived);
    }

    /** Backs out of a recorded run that has not started; `stuck` is the error if the worktree or its
        branch stays. */
    method GiveUp(run: Id, answers: Answers, stuck: AttemptError) returns (r: AttemptResult)
      requires run in worktrees && run in records
      modifies `worktrees, `records
      ensures worktrees - {run} == old(worktrees) - {run} && (run in worktrees <==> answers.discard == WorktreeLeft)
      ensures records - {run} == old(records) - {run}
      ensures run in records <==> answers.discard != Discarded || !answers.removed
      ensures run in records ==>
        records[run] == if answers.discard != Discarded && answers.savedAgain then Ended(Ambiguous) else old(records)[run]
      ensures r == Failing(if answers.discard != Discarded then stuck else if answers.removed then Local else RecordRemoval)
    {
      var discarded := DiscardWorktree(run, answers.discard);
      if !discarded {
        var _ := Save(run, Ended(Ambiguous), answers.savedAgain);
        return Failing(stuck);
      }
      var removed := RemoveRecord(run, answers.removed);
      return Failing(if removed then Local else RecordRemoval);
    }

    /** Watches for as long as the script of turns lasts. The attempts it makes are exactly those of the
        turns it takes, and `WatchOk` says which those are and how it ends. However it ends, every executor
        but the last had been reported gone before the next one started. */
    method Run(turns: seq<Turn>) returns (ending: Ending, ghost taken: nat)
      requires DistinctRuns(turns) && forall i :: 0 <= i < |turns| ==> turns[i].run !in worktrees && turns[i].run !in records
      requires launches == [] && results == []
      modifies this
      ensures (ending, taken) == Watched(turns, 0, 0) && WatchOk(turns, ending, taken)
      ensures launches == Launches(turns[..taken]) && results == Results(turns[..taken])
      ensures AllGone(launches)
      ensures worktrees == old(worktrees) + Left(turns[..taken])
      ensures records.Keys == old(records.Keys) + Kept(turns[..taken])
    {
      hide ResultOf, RecordLeft, LeavesWorktree, LeavesRecord, Launched, Gone, Left, Kept, Launches, Results, NoStreak, StreakAtEnd, Trailing, WatchOk,
           Orphans, NeverHeld, Fate, DistinctRuns;
      NothingTaken(turns);
      WatchedMeans(turns, 0, 0);
      var launchFailures := 0;
      taken := 0;
      for i := 0 to |turns|
        invariant taken == i
        invariant worktrees == old(worktrees) + Left(turns[..i]) && records.Keys == old(records.Keys) + Kept(turns[..i])
        invariant launches == Launches(turns[..i]) && results == Results(turns[..i])
        invariant AllReported(launches)
        invariant 0 <= launchFailures < LAUNCH_FAILURE_LIMIT
        invariant NoStreak(results) && Trailing(results, launchFailures)
        invariant Watched(turns, 0, 0) == Watched(turns, i, launchFailures)
      {
        var turn := turns[i];
        taken := i + 1;
        TakenNext(turns, i);
        match turn.before
        case StopsWith(error) =>
          return if error then Abandoned else Quiet, taken;
        case Idle =>
        case Offers =>
          Unused(turns, i);
          ghost var kept, known := worktrees, records;
          var r := Attempt(turn.run, turn.answers);
          OnlyOneRun(kept, worktrees, known, records, turn.run);
          SurvivorEnds(turn.run, turn.answers);
          StreakGrows(Results(turns[..i]), launchFailures, r);
          if Ends(r) || r.Pending? {
            return if r.Pending? then Watching else if r.error == Cancelled then Quiet else Abandoned, taken;
          }
          if r.Reached? && (r.state == Blocked || r.state == Interrupted) {
            return Quiet, taken;
          }
          launchFailures := if Fails(r) then launchFailures + 1 else 0;
          if launchFailures >= LAUNCH_FAILURE_LIMIT {
            return TooManyFailures, taken;
          }
      }
      assert turns[..|turns|] == turns;
      return Watching, taken;
    }
  }

  // ---------------------------------------------------------------- the loop

  /** What comes before an attempt: a check that ends the loop, with or without an error, nothing to do,
      or a candidate. */
  datatype Before = StopsWith(error: bool) | Idle | Offers

  datatype Turn = Turn(before: Before, run: Id, answers: Answers)

  datatype Ending = Quiet | Abandoned | TooManyFailures | Watching

  /** Run identifiers are drawn anew for every attempt. */
  ghost predicate DistinctRuns(turns: seq<Turn>) {
    forall i, j :: 0 <= i < j < |turns| ==> turns[i].run != turns[j].run
  }

  /** How the loop goes on from turn `i` after so many failures in a row, and how many turns it takes. */
  function Watched(turns: seq<Turn>, i: nat, failures: nat): (Ending, nat)
    requires i <= |turns|
    decreases |turns| - i
  {
    if i == |turns| then (Watching, i)
    else match turns[i].before
      case StopsWith(error) => (if error then Abandoned else Quiet, i + 1)
      case Idle => Watched(turns, i + 1, failures)
      case Offers =>
        var r := ResultOf(turns[i].run, turns[i].answers);
        if r.Pending? then (Watching, i + 1)
        else if Ends(r) then (if r.error == Cancelled then Quiet else Abandoned, i + 1)
        else if r == Reached(Blocked) || r == Reached(Interrupted) then (Quiet, i + 1)
        else if !Fails(r) then Watched(turns, i + 1, 0)
        else if failures + 1 >= LAUNCH_FAILURE_LIMIT then (TooManyFailures, i + 1)
        else Watched(turns, i + 1, failures + 1)
  }

  /** For every executor the turns start, whether it is reported gone. */
  function Launches(turns: seq<Turn>): seq<bool> {
    if turns == [] then []
    else
      var front, last := turns[..|turns| - 1], turns[|turns| - 1];
      Launches(front) + (if last.before == Offers && Launched(last.answers) then [Gone(last.run, last.answers)] else [])
  }

  /** The results of the attempts of the turns. */
  function Results(turns: seq<Turn>): seq<AttemptResult> {
    if turns == [] then []
    else
      var front, last := turns[..|turns| - 1], turns[|turns| - 1];
      Results(front) + (if last.before == Offers then [ResultOf(last.run, last.answers)] else [])
  }

  /** The runs whose worktree, and those whose record, the turns leave behind. */
  function Left(turns: seq<Turn>): set<Id> {
    set turn | turn in turns && turn.before == Offers && LeavesWorktree(turn.run, turn.answers) :: turn.run
  }

  function Kept(turns: seq<Turn>): set<Id> {
    set turn | turn in turns && turn.before == Offers && LeavesRecord(turn.run, turn.answers) :: turn.run
  }

  /** The worktrees the loop leaves without a record are exactly those of the attempts that orphan theirs. */
  lemma {:induction false} OrphansExactly(turns: seq<Turn>, run: Id)
    requires DistinctRuns(turns)
    ensures run in Left(turns) - Kept(turns) <==>
      exists i :: 0 <= i < |turns| && turns[i].run == run && turns[i].before == Offers && Orphans(turns[i].answers)
  {
    hide LeavesWorktree, LeavesRecord, Orphans;
    forall i | 0 <= i < |turns| {
      AttemptIsSafe(turns[i].run, turns[i].answers);
    }
    if run in Left(turns) - Kept(turns) {
      var turn :| turn in turns && turn.before == Offers && LeavesWorktree(turn.run, turn.answers) && turn.run == run;
      var i :| 0 <= i < |turns| && turns[i] == turn;
      assert Orphans(turns[i].answers);
    }
    if i :| 0 <= i < |turns| && turns[i].run == run && turns[i].before == Offers && Orphans(turns[i].answers) {
      assert turns[i] in turns;
      assert forall j :: 0 <= j < |turns| && turns[j].run == run ==> j == i;
    }
  }

  lemma {:induction false} TakenNext(turns: seq<Turn>, i: nat)
    requires i < |turns|
    ensures var turn := turns[i];
      && Left(turns[..i + 1]) == Left(turns[..i]) + (if turn.before == Offers && LeavesWorktree(turn.run, turn.answers) then {turn.run} else {})
      && Kept(turns[..i + 1]) == Kept(turns[..i]) + (if turn.before == Offers && LeavesRecord(turn.run, turn.answers) then {turn.run} else {})
      && Launches(turns[..i + 1])
         == Launches(turns[..i]) + (if turn.before == Offers && Launched(turn.answers) then [Gone(turn.run, turn.answers)] else [])
      && Results(turns[..i + 1]) == Results(turns[..i]) + (if turn.before == Offers then [ResultOf(turn.run, turn.answers)] else [])
  {
    hide ResultOf, LeavesWorktree, LeavesRecord, Launched, Gone;
    assert turns[..i + 1] == turns[..i] + [turns[i]];
    assert turns[..i + 1][..i] == turns[..i];
  }

  /** The run of a later turn is not among those of the turns taken. */
  lemma {:induction false} Unused(turns: seq<Turn>, i: nat)
    requires i < |turns| && DistinctRuns(turns)
    ensures turns[i].run !in Left(turns[..i]) && turns[i].run !in Kept(turns[..i])
  {
    hide LeavesWorktree, LeavesRecord;
    forall turn | turn in turns[..i]
      ensures turn.run != turns[i].run
    {
      var j :| 0 <= j < |turns[..i]| && turns[..i][j] == turn;
    }
  }

  /** What an attempt does to the disk concerns its own run. */
  lemma {:induction false} OnlyOneRun(worktrees: set<Id>, worktrees': set<Id>, records: map<Id, RecordState>, records': map<Id, RecordState>, run: Id)
    requires worktrees' - {run} == worktrees && records' - {run} == records
    ensures worktrees' == worktrees + (if run in worktrees' then {run} else {})
    ensures records'.Keys == records.Keys + (if run in records' then {run} else {})
  {
    assert (records' - {run}).Keys == records'.Keys - {run};
  }

  lemma {:induction false} NothingTaken(turns: seq<Turn>)
    ensures Left(turns[..0]) == {} && Kept(turns[..0]) == {} && Launches(turns[..0]) == [] && Results(turns[..0]) == []
    ensures NoStreak([]) && !StreakAtEnd([]) && Trailing([], 0)
  {
  }

  /** Every executor but the last had been reported gone. */
  ghost predicate AllGone(launches: seq<bool>) {
    forall i :: 0 <= i < |launches| - 1 ==> launches[i]
  }

  /** Five attempts in a row from `i` on got no executor going that claimed. */
  ghost predicate Streak(results: seq<AttemptResult>, i: nat)
    requires i + LAUNCH_FAILURE_LIMIT <= |results|
  {
    forall j :: i <= j < i + LAUNCH_FAILURE_LIMIT ==> results[j] == Failing(Local) || results[j] == Reached(NeverClaimed)
  }

  ghost predicate NoStreak(results: seq<AttemptResult>) {
    forall i :: 0 <= i && i + LAUNCH_FAILURE_LIMIT <= |results| ==> !Streak(results, i)
  }

  ghost predicate StreakAtEnd(results: seq<AttemptResult>) {
    |results| >= LAUNCH_FAILURE_LIMIT && Streak(results, |results| - LAUNCH_FAILURE_LIMIT)
  }

  /** The attempts end with exactly `n` failing ones. */
  ghost predicate Trailing(results: seq<AttemptResult>, n: nat) {
    && n <= |results|
    && (forall j :: |results| - n <= j < |results| ==> Fails(results[j]))
    && (n < |results| ==> !Fails(results[|results| - 1 - n]))
  }

  /** One more attempt lengthens the streak or breaks it, and the fifth failure completes the first streak. */
  lemma {:induction false} StreakGrows(results: seq<AttemptResult>, n: nat, r: AttemptResult)
    requires NoStreak(results) && Trailing(results, n) && n < LAUNCH_FAILURE_LIMIT
    ensures Trailing(results + [r], if Fails(r) then n + 1 else 0)
    ensures StreakAtEnd(results + [r]) <==> Fails(r) && n + 1 == LAUNCH_FAILURE_LIMIT
    ensures NoStreak(results + [r]) <==> !StreakAtEnd(results + [r])
  {
    var more := results + [r];
    assert forall j :: 0 <= j < |results| ==> more[j] == results[j];
    forall i | 0 <= i && i + LAUNCH_FAILURE_LIMIT < |more|
      ensures !Streak(more, i)
    {
      assert !Streak(results, i);
    }
    assert more[|results|] == r;
    assert n < |results| ==> !Fails(more[|results| - 1 - n]);
  }

  // ---------------------------------------------------------------- what the loop comes to

  /** The loop goes on after the turn, as far as the turn alone decides. */
  ghost predicate GoesOn(turn: Turn) {
    || turn.before == Idle
    || (turn.before == Offers && ResultOf(turn.run, turn.answers) in
          {Failing(Local), Reached(NeverClaimed), Reached(Success), Reached(LostRace), Reached(Ambiguous)})
  }

  /** The turn ends the loop with an error: a check before it failed, the server answered for good, a process group
      would not stop, or a worktree and its record no longer match. */
  ghost predicate GivesUp(turn: Turn) {
    || turn.before == StopsWith(true)
    || (turn.before == Offers && ResultOf(turn.run, turn.answers) in
          {Failing(ServerTerminal), Failing(GroupSurvived), Failing(Undiscoverable), Failing(RecordRemoval)})
  }

  /** The turn ends the loop without an error: the watcher is stopping, or the agent asks for help or was cut
      off, which a person has to look at first. */
  ghost predicate StopsQuietly(turn: Turn) {
    || turn.before == StopsWith(false)
    || (turn.before == Offers && ResultOf(turn.run, turn.answers) in {Failing(Cancelled), Reached(Blocked), Reached(Interrupted)})
  }

  /** The loop takes turns up to the first that ends it or completes a streak of five, and which of these it is
      tells how it ends. */
  ghost predicate WatchOk(turns: seq<Turn>, ending: Ending, taken: nat) {
    && taken <= |turns|
    && (forall i :: 0 <= i < taken - 1 ==> GoesOn(turns[i]))
    && (forall n :: 0 <= n < taken ==> !StreakAtEnd(Results(turns[..n])))
    && (ending == TooManyFailures <==> StreakAtEnd(Results(turns[..taken])))
    && (ending == Abandoned <==> taken > 0 && GivesUp(turns[taken - 1]))
    && (ending == Quiet <==> taken > 0 && StopsQuietly(turns[taken - 1]))
    && (ending == Watching ==>
          || (taken == |turns| && (taken > 0 ==> GoesOn(turns[taken - 1])))
          || (taken > 0 && turns[taken - 1].before == Offers && ResultOf(turns[taken - 1].run, turns[taken - 1].answers).Pending?))
  }

  lemma {:induction false} WatchedMeans(turns: seq<Turn>, i: nat, failures: nat)
    requires i <= |turns| && failures < LAUNCH_FAILURE_LIMIT
    requires forall j :: 0 <= j < i ==> GoesOn(turns[j])
    requires forall n :: 0 <= n <= i ==> !StreakAtEnd(Results(turns[..n]))
    requires NoStreak(Results(turns[..i])) && Trailing(Results(turns[..i]), failures)
    ensures var (ending, taken) := Watched(turns, i, failures); WatchOk(turns, ending, taken)
    decreases |turns| - i
  {
    hide ResultOf, Results, NoStreak, Trailing, StreakAtEnd, LeavesWorktree, LeavesRecord, Launched, Gone, Left, Kept, Launches;
    if i == |turns| {
    } else {
      var turn := turns[i];
      TakenNext(turns, i);
      assert Results(turns[..i]) + [] == Results(turns[..i]);
      if turn.before.StopsWith? {
      } else if turn.before == Idle {
        WatchedMeans(turns, i + 1, failures);
      } else {
        var r := ResultOf(turn.run, turn.answers);
        StreakGrows(Results(turns[..i]), failures, r);
        if Fails(r) {
          if failures + 1 < LAUNCH_FAILURE_LIMIT {
            WatchedMeans(turns, i + 1, failures + 1);
          }
        } else if r.Reached? && r.state != Blocked && r.state != Interrupted {
          assert r.state.Success? || r.state.LostRace? || r.state.Ambiguous?;
          WatchedMeans(turns, i + 1, 0);
        }
      }
    }
  }
}
