/** The cap on worktrees held by one profile: `attempt` in cli/cmd/slate/watch.go over the
    registry of cli/cmd/slate/registry.go.

    Any number of watchers share the registry. Each attempt saves its record and then counts
    again; the count reads the directory once and then loads the records one by one, so saves,
    removals, crashes and clean-ups of other runs may fall between any two of its reads. */
module RetentionCap {
  import opened Basics

  const MAX_RETAINED_RUNS := 10

  type Run = nat

  datatype Phase =
    | Saved
    | Listing(unread: set<Run>, counted: set<Run>)
    | BackingOut
    | Launched
    /** The watcher is done with the run or died in it. */
    | Stopped(launched: bool)

  datatype Registry = Registry(
    records: set<Run>,
    phases: map<Run, Phase>,
    /** The runs that have read the directory, in the order in which they did. */
    listed: seq<Run>)

  ghost predicate Init(s: Registry) {
    s == Registry({}, map[], [])
  }

  datatype Step =
    | Save(run: Run)
    | ReadDirectory(run: Run)
    | Load(run: Run, record: Run)
    | Decide(run: Run)
    | BackOut(run: Run, removed: bool)
    | Finish(run: Run, removed: bool)
    | Crash(run: Run)
    | Clean(run: Run)

  predicate Enabled(s: Registry, step: Step) {
    match step
    case Save(run) => run !in s.phases
    case ReadDirectory(run) => run in s.phases && s.phases[run].Saved?
    case Load(run, record) => run in s.phases && s.phases[run].Listing? && record in s.phases[run].unread
    case Decide(run) => run in s.phases && s.phases[run].Listing? && s.phases[run].unread == {}
    case BackOut(run, _) => run in s.phases && s.phases[run].BackingOut?
    case Finish(run, _) => run in s.phases && s.phases[run].Launched?
    case Crash(run) => run in s.phases && !s.phases[run].Stopped?
    case Clean(run) => run in s.phases && s.phases[run].Stopped?
  }

  function Apply(s: Registry, step: Step): Registry
    requires Enabled(s, step)
  {
    match step
    case Save(run) =>
      s.(records := s.records + {run}, phases := s.phases[run := Saved])
    case ReadDirectory(run) =>
      s.(phases := s.phases[run := Listing(s.records, {})], listed := s.listed + [run])
    case Load(run, record) =>
      // A record that disappeared since the directory was read is skipped.
      var phase := s.phases[run];
      s.(phases := s.phases[run := Listing(phase.unread - {record},
                                           if record in s.records then phase.counted + {record} else phase.counted)])
    case Decide(run) =>
      s.(phases := s.phases[run := if |s.phases[run].counted| > MAX_RETAINED_RUNS then BackingOut else Launched])
    case BackOut(run, removed) =>
      // A worktree that cannot be removed keeps its record.
      s.(records := if removed then s.records - {run} else s.records, phases := s.phases[run := Stopped(false)])
    case Finish(run, removed) =>
      s.(records := if removed then s.records - {run} else s.records, phases := s.phases[run := Stopped(true)])
    case Crash(run) =>
      s.(phases := s.phases[run := Stopped(s.phases[run].Launched?)])
    case Clean(run) =>
      s.(records := s.records - {run})
  }

  predicate EverLaunched(s: Registry, run: Run) {
    run in s.phases && (s.phases[run] == Launched || s.phases[run] == Stopped(true))
  }

  /** The runs that read the directory no later than the `i`-th and still have a record. */
  function Earlier(s: Registry, i: nat): set<Run>
    requires i < |s.listed|
  {
    Elements(s.listed[..i + 1]) * s.records
  }

  ghost predicate Shape(s: Registry) {
    && Distinct(s.listed)
    && (forall i :: 0 <= i < |s.listed| ==> s.listed[i] in s.phases && !s.phases[s.listed[i]].Saved?)
    && (forall run :: run in s.phases && (s.phases[run].Listing? || EverLaunched(s, run)) ==> run in s.listed)
    && s.records <= s.phases.Keys
  }

  /** A listing misses no record of a run that listed before it. */
  ghost predicate ListingsSeeEarlier(s: Registry) {
    forall i :: 0 <= i < |s.listed| && s.listed[i] in s.phases && s.phases[s.listed[i]].Listing? ==>
      Earlier(s, i) <= s.phases[s.listed[i]].unread + s.phases[s.listed[i]].counted
  }

  /** A launched run found room for every run that listed before it. */
  ghost predicate LaunchesHadRoom(s: Registry) {
    forall i :: 0 <= i < |s.listed| && EverLaunched(s, s.listed[i]) ==> |Earlier(s, i)| <= MAX_RETAINED_RUNS
  }

  ghost predicate Inv(s: Registry) {
    Shape(s) && ListingsSeeEarlier(s) && LaunchesHadRoom(s)
  }

  lemma EarlierShrinks(s: Registry, s': Registry, i: nat)
    requires i < |s.listed| && s.listed <= s'.listed
    requires forall run :: run in s'.records && run in s.listed ==> run in s.records
    ensures Earlier(s', i) <= Earlier(s, i)
    ensures |Earlier(s', i)| <= |Earlier(s, i)|
  {
    assert s'.listed[..i + 1] == s.listed[..i + 1];
    SubsetCardinality(Earlier(s', i), Earlier(s, i));
  }

  lemma DecisionKeepsRoom(s: Registry, run: Run, i: nat)
    requires Inv(s) && Enabled(s, Decide(run)) && i < |s.listed| && s.listed[i] == run
    requires |s.phases[run].counted| <= MAX_RETAINED_RUNS
    ensures |Earlier(s, i)| <= MAX_RETAINED_RUNS
  {
    SubsetCardinality(Earlier(s, i), s.phases[run].counted);
  }

  lemma StepKeepsShape(s: Registry, step: Step)
    requires Inv(s) && Enabled(s, step)
    ensures Shape(Apply(s, step))
  {
    var s' := Apply(s, step);
    if step.ReadDirectory? {
      assert step.run !in s.listed;
    }
    forall i | 0 <= i < |s'.listed|
      ensures s'.listed[i] in s'.phases && !s'.phases[s'.listed[i]].Saved?
    {
      if i < |s.listed| {
        assert s'.listed[i] == s.listed[i];
      }
    }
  }

  lemma StepKeepsListings(s: Registry, step: Step)
    requires Inv(s) && Enabled(s, step)
    ensures ListingsSeeEarlier(Apply(s, step))
  {
    var s' := Apply(s, step);
    forall i | 0 <= i < |s'.listed| && s'.listed[i] in s'.phases && s'.phases[s'.listed[i]].Listing?
      ensures Earlier(s', i) <= s'.phases[s'.listed[i]].unread + s'.phases[s'.listed[i]].counted
    {
      if i < |s.listed| {
        assert s'.listed[i] == s.listed[i];
        EarlierShrinks(s, s', i);
        assert s.phases[s.listed[i]].Listing?;
      }
    }
  }

  lemma StepKeepsRoom(s: Registry, step: Step)
    requires Inv(s) && Enabled(s, step)
    ensures LaunchesHadRoom(Apply(s, step))
  {
    var s' := Apply(s, step);
    forall i | 0 <= i < |s'.listed| && EverLaunched(s', s'.listed[i])
      ensures |Earlier(s', i)| <= MAX_RETAINED_RUNS
    {
      assert i < |s.listed|;
      assert s'.listed[i] == s.listed[i];
      EarlierShrinks(s, s', i);
      if !EverLaunched(s, s.listed[i]) {
        assert step == Decide(s.listed[i]);
        DecisionKeepsRoom(s, s.listed[i], i);
      }
    }
  }

  ghost predicate Trace(states: seq<Registry>, steps: seq<Step>) {
    && |states| == |steps| + 1
    && Init(states[0])
    && forall i :: 0 <= i < |steps| ==> Enabled(states[i], steps[i]) && states[i + 1] == Apply(states[i], steps[i])
  }

  lemma {:induction false} TraceKeepsInv(states: seq<Registry>, steps: seq<Step>, i: nat)
    requires Trace(states, steps) && i < |states|
    ensures Inv(states[i])
  {
    if i == 0 {
    } else {
      TraceKeepsInv(states, steps, i - 1);
      StepKeepsShape(states[i - 1], steps[i - 1]);
      StepKeepsListings(states[i - 1], steps[i - 1]);
      StepKeepsRoom(states[i - 1], steps[i - 1]);
    }
  }

  function LaunchedWithRecord(s: Registry): set<Run> {
    set run | run in s.records && EverLaunched(s, run)
  }

  lemma LastLaunched(s: Registry, n: nat) returns (last: nat)
    requires Shape(s) && n <= |s.listed|
    requires exists i :: 0 <= i < n && EverLaunched(s, s.listed[i])
    ensures last < n && EverLaunched(s, s.listed[last])
    ensures forall i :: last < i < n ==> !EverLaunched(s, s.listed[i])
  {
    if EverLaunched(s, s.listed[n - 1]) {
      last := n - 1;
    } else {
      last := LastLaunched(s, n - 1);
    }
  }

  lemma InvBoundsLaunched(s: Registry)
    requires Inv(s)
    ensures |LaunchedWithRecord(s)| <= MAX_RETAINED_RUNS
  {
    var launched := LaunchedWithRecord(s);
    if launched != {} {
      var run :| run in launched;
      assert run in s.listed;
      var last := LastLaunched(s, |s.listed|);
      assert launched <= Earlier(s, last) by {
        forall r | r in launched
          ensures r in Earlier(s, last)
        {
          var i :| 0 <= i < |s.listed| && s.listed[i] == r;
          assert i <= last;
          assert s.listed[..last + 1][i] == r;
        }
      }
      SubsetCardinality(launched, Earlier(s, last));
    }
  }

  /** In every interleaving, the launched runs that still have a record never exceed the cap. */
  lemma CapHolds(states: seq<Registry>, steps: seq<Step>, i: nat)
    requires Trace(states, steps) && i < |states|
    ensures |LaunchedWithRecord(states[i])| <= MAX_RETAINED_RUNS
  {
    TraceKeepsInv(states, steps, i);
    InvBoundsLaunched(states[i]);
  }

  // ---------------------------------------------------------------- no more than the cap

  /** Launching is for good, and a run launches exactly when it decides on a count within the cap. */
  lemma {:induction false} LaunchedExactly(s: Registry, step: Step, run: Run)
    requires Enabled(s, step)
    ensures EverLaunched(Apply(s, step), run) <==>
      EverLaunched(s, run) || (step == Decide(run) && |s.phases[run].counted| <= MAX_RETAINED_RUNS)
    ensures step == Decide(run) && |s.phases[run].counted| > MAX_RETAINED_RUNS ==> Apply(s, step).phases[run] == BackingOut
  {
  }

  /** A record goes exactly when its run backs out or finishes and it is removed, or when it is cleaned up after
      the watcher is done with the run; and it comes only with its run. */
  lemma {:induction false} RecordGoesExactly(s: Registry, step: Step, run: Run)
    requires Shape(s) && Enabled(s, step)
    ensures run in s.records ==>
      (run !in Apply(s, step).records <==> step in {BackOut(run, true), Finish(run, true), Clean(run)})
    ensures run !in s.records ==> (run in Apply(s, step).records <==> step == Save(run))
  {
  }

  /** The runs that had a record at some moment from `from` to `until`. */
  ghost function EverRecorded(states: seq<Registry>, from: nat, until: nat): set<Run>
    requires from <= until < |states|
    decreases until - from
  {
    if from == until then states[from].records else EverRecorded(states, from, until - 1) + states[until].records
  }

  lemma {:induction false} CountedWereRecorded(states: seq<Registry>, steps: seq<Step>, run: Run, from: nat, until: nat)
    requires Trace(states, steps) && from < until < |states| && steps[from] == ReadDirectory(run)
    ensures run in states[until].phases
    ensures var phase := states[until].phases[run];
      !phase.Saved? && (phase.Listing? ==> phase.unread + phase.counted <= EverRecorded(states, from, until))
    decreases until - from
  {
    var s, step := states[until - 1], steps[until - 1];
    assert Enabled(s, step) && states[until - 1 + 1] == Apply(s, step);
    if until == from + 1 {
    } else {
      CountedWereRecorded(states, steps, run, from, until - 1);
    }
  }

  /** Nobody backs out without cause: a run that counts while no more than ten runs in all have a record launches. */
  lemma {:induction false} LaunchesWithRoom(states: seq<Registry>, steps: seq<Step>, run: Run, from: nat, until: nat)
    requires Trace(states, steps) && from < until < |steps| && steps[from] == ReadDirectory(run) && steps[until] == Decide(run)
    requires |EverRecorded(states, from, until)| <= MAX_RETAINED_RUNS
    ensures run in states[until + 1].phases && states[until + 1].phases[run] == Launched
  {
    CountedWereRecorded(states, steps, run, from, until);
    assert Enabled(states[until], steps[until]);
    SubsetCardinality(states[until].phases[run].counted, EverRecorded(states, from, until));
  }
}
