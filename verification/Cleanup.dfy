/** Budgeted round-robin cleanup: `RunWithBudget` in server/internal/cleanup/cleanup.go.

    The database and the clock are oracles: a batch may delete any number of rows up to its
    limit or fail, a backlog query may answer anything or fail, and the run may or may not
    run out of time at any check. */
module Cleanup {
  import opened Basics

  const DEFAULT_BATCH_SIZE := 500

  /** The step of a rule that failed. */
  datatype Failure = NoFailure | DeleteFailed | BacklogFailed

  datatype Rule = Rule(
    affected: nat,
    batches: nat,
    backlog: Option<bool>,
    budgetReached: bool,
    failure: Failure,
    /** How many rows the last batch deleted; not part of the report. */
    lastBatch: nat)

  datatype Report = Report(results: seq<Rule>, total: nat, budgetReached: bool)

  /** The answers of the environment, indexed by how many questions were asked before. */
  datatype Oracle = Oracle(batch: (nat, nat) -> Option<nat>, backlog: nat -> Option<bool>, expired: nat -> bool)

  /** A bounded delete never removes more rows than its limit. */
  ghost predicate Honest(oracle: Oracle) {
    && (forall tick, limit :: oracle.batch(tick, limit).Some? ==> oracle.batch(tick, limit).value <= limit)
    && (forall early, late :: early <= late && oracle.expired(early) ==> oracle.expired(late))
  }

  predicate Failed(rule: Rule) {
    rule.failure != NoFailure
  }

  /** How many deletions were tried for a rule. */
  function Tries(rule: Rule): nat {
    rule.batches + (if rule.failure == DeleteFailed then 1 else 0)
  }

  function Min(a: int, b: int): int {
    if a < b then a else b
  }

  function Total(results: seq<Rule>): nat {
    if results == [] then 0 else Total(results[..|results| - 1]) + results[|results| - 1].affected
  }

  lemma TotalUpdate(results: seq<Rule>, i: nat, rule: Rule)
    requires i < |results|
    ensures Total(results[i := rule]) == Total(results) - results[i].affected + rule.affected
  {
    var last := |results| - 1;
    if i < last {
      TotalUpdate(results[..last], i, rule);
      assert results[i := rule][..last] == results[..last][i := rule];
    } else {
      assert results[i := rule][..last] == results[..last];
    }
  }

  /** Work left: how many more rows the active rules may delete, plus one for each of them
      so that stopping a rule is progress too. */
  function Work(results: seq<Rule>, active: seq<bool>, budget: nat): nat
    requires |results| == |active|
    requires forall i :: 0 <= i < |results| && active[i] ==> results[i].affected < budget
  {
    if results == [] then 0
    else
      var last := |results| - 1;
      Work(results[..last], active[..last], budget) + (if active[last] then budget - results[last].affected else 0)
  }

  lemma WorkUpdate(results: seq<Rule>, active: seq<bool>, budget: nat, i: nat, rule: Rule, on: bool)
    requires |results| == |active| && i < |results| && active[i]
    requires forall j :: 0 <= j < |results| && active[j] ==> results[j].affected < budget
    requires on ==> results[i].affected < rule.affected < budget
    ensures Work(results[i := rule], active[i := on], budget) < Work(results, active, budget)
  {
    var last := |results| - 1;
    if i < last {
      WorkUpdate(results[..last], active[..last], budget, i, rule, on);
      assert results[i := rule][..last] == results[..last][i := rule];
      assert active[i := on][..last] == active[..last][i := on];
    } else {
      assert results[i := rule][..last] == results[..last];
      assert active[i := on][..last] == active[..last];
    }
  }

  function ActiveCount(active: seq<bool>): nat {
    if active == [] then 0 else ActiveCount(active[..|active| - 1]) + (if active[|active| - 1] then 1 else 0)
  }

  lemma ActiveCountUpdate(active: seq<bool>, i: nat, on: bool)
    requires i < |active|
    ensures ActiveCount(active[i := on]) == ActiveCount(active) - (if active[i] then 1 else 0) + (if on then 1 else 0)
  {
    var last := |active| - 1;
    if i < last {
      ActiveCountUpdate(active[..last], i, on);
      assert active[i := on][..last] == active[..last][i := on];
    } else {
      assert active[i := on][..last] == active[..last];
    }
  }

  lemma SomeActive(active: seq<bool>)
    requires ActiveCount(active) > 0
    ensures exists i :: 0 <= i < |active| && active[i]
  {
  }

  lemma AllOn(n: nat)
    ensures ActiveCount(seq(n, i => true)) == n
  {
    if n == 0 {
    } else {
      AllOn(n - 1);
      assert seq(n, i => true)[..n - 1] == seq(n - 1, i => true);
    }
  }

  // ---------------------------------------------------------------- one rule

  const UNTOUCHED := Rule(0, 0, None, false, NoFailure, 0)

  /** The rule takes no further part: it failed, it has no backlog, every row left is out of reach, or its
      budget is spent. */
  predicate Stopped(rule: Rule) {
    Failed(rule) || rule.budgetReached || rule.backlog == Some(false) || (rule.backlog.Some? && rule.lastBatch == 0)
  }

  /** The rows the next batch may delete. */
  function Limit(rule: Rule, batchSize: nat, budget: nat): nat {
    if rule.affected <= budget then Min(batchSize, budget - rule.affected) else 0
  }

  /** A rule after one batch. */
  function BatchOf(oracle: Oracle, rule: Rule, batchSize: nat, budget: nat, tick: nat): Rule {
    var limit := Limit(rule, batchSize, budget);
    var answer := oracle.batch(tick, limit);
    if answer.None? then rule.(failure := DeleteFailed)
    else
      var next := rule.(batches := rule.batches + 1, affected := rule.affected + answer.value, lastBatch := answer.value);
      if answer.value < limit then
        if oracle.backlog(tick).None? then next.(failure := BacklogFailed) else next.(backlog := oracle.backlog(tick))
      else if next.affected >= budget then next.(budgetReached := true)
      else next
  }

  /** What every rule keeps. A rule that goes on still has budget. A rule that stopped was tried; if it did
      so without an error and below its budget, it has no backlog or just deleted nothing. */
  ghost predicate RuleOk(rule: Rule, budget: nat) {
    && rule.lastBatch <= rule.affected <= budget
    && (rule.budgetReached <==> rule.affected == budget)
    && (!Stopped(rule) ==> rule.affected < budget)
    && (Stopped(rule) ==> Tries(rule) >= 1)
    && (Stopped(rule) && !Failed(rule) && rule.affected < budget ==>
          rule.backlog == Some(false) || (rule.backlog.Some? && rule.lastBatch == 0))
  }

  lemma {:induction false} BatchOfKeeps(oracle: Oracle, rule: Rule, batchSize: nat, budget: nat, tick: nat)
    requires Honest(oracle) && batchSize >= 1 && RuleOk(rule, budget) && !Stopped(rule)
    ensures var next, limit := BatchOf(oracle, rule, batchSize, budget, tick), Limit(rule, batchSize, budget);
            var answer := oracle.batch(tick, limit);
            && 1 <= limit <= batchSize && rule.affected + limit <= budget
            && RuleOk(next, budget) && Tries(next) == Tries(rule) + 1
            && next.affected == rule.affected + (if answer.Some? then answer.value else 0)
            && (!Stopped(next) ==> rule.affected < next.affected)
            && (next.failure == DeleteFailed <==> answer.None?)
            && (next.failure == BacklogFailed <==> answer.Some? && answer.value < limit && oracle.backlog(tick).None?)
  {
  }

  /** One batch of one rule, and whether the rule stays active. */
  method Batch(oracle: Oracle, rule: Rule, batchSize: nat, budget: nat, tick: nat)
    returns (next: Rule, on: bool)
    requires Honest(oracle) && batchSize >= 1
    requires RuleOk(rule, budget) && !Stopped(rule)
    ensures next == BatchOf(oracle, rule, batchSize, budget, tick) && RuleOk(next, budget)
    ensures on <==> !Stopped(next)
    ensures on ==> rule.affected < next.affected
    ensures rule.affected <= next.affected && Tries(next) == Tries(rule) + 1
  {
    BatchOfKeeps(oracle, rule, batchSize, budget, tick);
    var limit := Min(batchSize, budget - rule.affected);
    var answer := oracle.batch(tick, limit);
    if answer.None? {
      return rule.(failure := DeleteFailed), false;
    }
    next := rule.(batches := rule.batches + 1, affected := rule.affected + answer.value, lastBatch := answer.value);
    on := true;
    if answer.value < limit {
      var backlog := oracle.backlog(tick);
      if backlog.None? {
        return next.(failure := BacklogFailed), false;
      }
      next := next.(backlog := backlog);
      if !backlog.value || answer.value == 0 {
        on := false;
      }
    } else if next.affected >= budget {
      next := next.(budgetReached := true);
      on := false;
    }
  }

  // ---------------------------------------------------------------- what a run asked

  /** A rule after the deletions that were tried, as the database answered them. `asks` names the rule of
      each, in order. */
  function RuleAfter(oracle: Oracle, asks: seq<nat>, rule: nat, batchSize: nat, budget: nat): Rule {
    if asks == [] then UNTOUCHED
    else
      var tick := |asks| - 1;
      var before := RuleAfter(oracle, asks[..tick], rule, batchSize, budget);
      if asks[tick] == rule then BatchOf(oracle, before, batchSize, budget, tick) else before
  }

  /** Deletions were tried only in time and only for rules that had not stopped. */
  ghost predicate Proper(oracle: Oracle, asks: seq<nat>, rules: nat, batchSize: nat, budget: nat) {
    forall tick :: 0 <= tick < |asks| ==>
      asks[tick] < rules && !oracle.expired(tick) && !Stopped(RuleAfter(oracle, asks[..tick], asks[tick], batchSize, budget))
  }

  lemma {:induction false} ProperFront(oracle: Oracle, asks: seq<nat>, rules: nat, batchSize: nat, budget: nat)
    requires Proper(oracle, asks, rules, batchSize, budget) && asks != []
    ensures Proper(oracle, asks[..|asks| - 1], rules, batchSize, budget)
  {
    var front := asks[..|asks| - 1];
    forall tick | 0 <= tick < |front|
      ensures front[tick] < rules && !oracle.expired(tick) && !Stopped(RuleAfter(oracle, front[..tick], front[tick], batchSize, budget))
    {
      assert front[..tick] == asks[..tick] && front[tick] == asks[tick];
    }
  }

  lemma {:induction false} ProperLast(oracle: Oracle, asks: seq<nat>, rules: nat, batchSize: nat, budget: nat)
    requires Proper(oracle, asks, rules, batchSize, budget) && asks != []
    ensures !Stopped(RuleAfter(oracle, asks[..|asks| - 1], asks[|asks| - 1], batchSize, budget))
  {
  }

  lemma {:induction false} ProperNext(oracle: Oracle, asks: seq<nat>, rules: nat, batchSize: nat, budget: nat, i: nat)
    requires Proper(oracle, asks, rules, batchSize, budget) && i < rules && !oracle.expired(|asks|)
    requires !Stopped(RuleAfter(oracle, asks, i, batchSize, budget))
    ensures Proper(oracle, asks + [i], rules, batchSize, budget)
  {
    var more := asks + [i];
    forall tick | 0 <= tick < |more|
      ensures more[tick] < rules && !oracle.expired(tick) && !Stopped(RuleAfter(oracle, more[..tick], more[tick], batchSize, budget))
    {
      assert more[..tick] == asks[..tick];
      assert asks[..|asks|] == asks;
    }
  }

  /** Whatever was asked, every rule is within its budget and explained. */
  lemma {:induction false} RuleAfterOk(oracle: Oracle, asks: seq<nat>, rules: nat, batchSize: nat, budget: nat, rule: nat)
    requires Honest(oracle) && batchSize >= 1 && budget >= 1 && Proper(oracle, asks, rules, batchSize, budget)
    ensures RuleOk(RuleAfter(oracle, asks, rule, batchSize, budget), budget)
  {
    if asks == [] {
    } else {
      var tick := |asks| - 1;
      ProperFront(oracle, asks, rules, batchSize, budget);
      RuleAfterOk(oracle, asks[..tick], rules, batchSize, budget, rule);
      if asks[tick] == rule {
        BatchOfKeeps(oracle, RuleAfter(oracle, asks[..tick], rule, batchSize, budget), batchSize, budget, tick);
      }
    }
  }

  /** The database failed to delete for this rule at this moment. */
  ghost predicate DeletionErred(oracle: Oracle, asks: seq<nat>, rule: nat, batchSize: nat, budget: nat, tick: nat)
    requires tick < |asks|
  {
    asks[tick] == rule && oracle.batch(tick, Limit(RuleAfter(oracle, asks[..tick], rule, batchSize, budget), batchSize, budget)).None?
  }

  /** A batch of this rule came back short at this moment and its backlog could not be read. */
  ghost predicate BacklogErred(oracle: Oracle, asks: seq<nat>, rule: nat, batchSize: nat, budget: nat, tick: nat)
    requires tick < |asks|
  {
    && asks[tick] == rule && oracle.backlog(tick).None?
    && var limit := Limit(RuleAfter(oracle, asks[..tick], rule, batchSize, budget), batchSize, budget);
       oracle.batch(tick, limit).Some? && oracle.batch(tick, limit).value < limit
  }

  /** An error is reported if and only if the database made it. */
  lemma {:induction false} FailuresExplained(oracle: Oracle, asks: seq<nat>, rules: nat, batchSize: nat, budget: nat, rule: nat)
    requires Honest(oracle) && batchSize >= 1 && budget >= 1 && Proper(oracle, asks, rules, batchSize, budget)
    ensures var failure := RuleAfter(oracle, asks, rule, batchSize, budget).failure;
      && (failure == DeleteFailed <==> exists tick :: 0 <= tick < |asks| && DeletionErred(oracle, asks, rule, batchSize, budget, tick))
      && (failure == BacklogFailed <==> exists tick :: 0 <= tick < |asks| && BacklogErred(oracle, asks, rule, batchSize, budget, tick))
  {
    hide BatchOf, Limit, Stopped, RuleOk;
    if asks == [] {
    } else {
      var last := |asks| - 1;
      var front := asks[..last];
      ProperFront(oracle, asks, rules, batchSize, budget);
      FailuresExplained(oracle, front, rules, batchSize, budget, rule);
      forall tick | 0 <= tick < last
        ensures DeletionErred(oracle, asks, rule, batchSize, budget, tick) <==> DeletionErred(oracle, front, rule, batchSize, budget, tick)
        ensures BacklogErred(oracle, asks, rule, batchSize, budget, tick) <==> BacklogErred(oracle, front, rule, batchSize, budget, tick)
      {
        assert front[..tick] == asks[..tick];
      }
      if asks[last] == rule {
        RuleAfterOk(oracle, front, rules, batchSize, budget, rule);
        BatchOfKeeps(oracle, RuleAfter(oracle, front, rule, batchSize, budget), batchSize, budget, last);
        NotFailedYet(RuleAfter(oracle, front, rule, batchSize, budget));
      }
      LastErred(oracle, asks, rule, batchSize, budget);
    }
  }

  lemma {:induction false} NotFailedYet(rule: Rule)
    requires !Stopped(rule)
    ensures rule.failure == NoFailure
  {
  }

  lemma {:induction false} LastErred(oracle: Oracle, asks: seq<nat>, rule: nat, batchSize: nat, budget: nat)
    requires asks != []
    ensures var last := |asks| - 1;
      && ((exists tick :: 0 <= tick < |asks| && DeletionErred(oracle, asks, rule, batchSize, budget, tick)) <==>
           DeletionErred(oracle, asks, rule, batchSize, budget, last)
           || exists tick :: 0 <= tick < last && DeletionErred(oracle, asks, rule, batchSize, budget, tick))
      && ((exists tick :: 0 <= tick < |asks| && BacklogErred(oracle, asks, rule, batchSize, budget, tick)) <==>
           BacklogErred(oracle, asks, rule, batchSize, budget, last)
           || exists tick :: 0 <= tick < last && BacklogErred(oracle, asks, rule, batchSize, budget, tick))
  {
    hide DeletionErred, BacklogErred;
    assert 0 <= |asks| - 1 < |asks|;
  }

  // ---------------------------------------------------------------- the report

  /** Some rule reached its budget. */
  ghost predicate AnyReached(results: seq<Rule>) {
    exists i :: 0 <= i < |results| && results[i].budgetReached
  }

  /** The closing pass asks for a backlog that is not known, if the rule has not failed and time is left. */
  function Closed(oracle: Oracle, rule: Rule, tick: nat): Rule {
    if rule.backlog.Some? || Failed(rule) || oracle.expired(tick) then rule
    else if oracle.backlog(tick).None? then rule.(failure := BacklogFailed)
    else rule.(backlog := oracle.backlog(tick))
  }

  /** What a report says about a run that tried the deletions `asks`. Each was tried in time, for a rule that had
      not stopped, and so for at least one row; the results are what the database answered; and unless
      time ran out after them every rule has stopped. */
  ghost predicate ReportOk(oracle: Oracle, report: Report, asks: seq<nat>, rules: nat, batchSize: nat, budget: nat) {
    var expired := oracle.expired(|asks|);
    && Proper(oracle, asks, rules, batchSize, budget)
    && |report.results| == rules
    && (forall i :: 0 <= i < rules ==> report.results[i] == Closed(oracle, RuleAfter(oracle, asks, i, batchSize, budget), |asks| + i))
    && (expired || forall i :: 0 <= i < rules ==> Stopped(RuleAfter(oracle, asks, i, batchSize, budget)))
    && report.total == Total(report.results)
    && (report.budgetReached <==> expired || AnyReached(report.results))
  }

  /** Hence each batch was for between one row and the batch size; no rule exceeds its budget; a rule that
      stopped, without an error and below its budget, has no backlog or just deleted nothing; and
      with a database that makes no errors none is reported. */
  lemma {:induction false} ReportMeans(oracle: Oracle, report: Report, asks: seq<nat>, rules: nat, batchSize: nat, budget: nat)
    requires Honest(oracle) && batchSize >= 1 && budget >= 1 && ReportOk(oracle, report, asks, rules, batchSize, budget)
    ensures forall tick :: 0 <= tick < |asks| ==>
      var rule := RuleAfter(oracle, asks[..tick], asks[tick], batchSize, budget);
      rule.affected < budget && 1 <= Limit(rule, batchSize, budget) <= batchSize
    ensures forall i :: 0 <= i < rules ==>
      var rule := report.results[i];
      rule.affected <= budget && (rule.budgetReached <==> rule.affected == budget)
    ensures !oracle.expired(|asks|) ==> forall i :: 0 <= i < rules ==>
      var rule := report.results[i];
      Failed(rule) || rule.affected == budget || RanOut(oracle, asks, i, batchSize, budget, rule.backlog)
    ensures forall i :: 0 <= i < rules ==>
      var before, rule, answer := RuleAfter(oracle, asks, i, batchSize, budget), report.results[i], oracle.backlog(|asks| + i);
      before.backlog.None? && !Failed(before) && !oracle.expired(|asks| + i) ==>
        if answer.None? then rule.failure == BacklogFailed else rule.backlog == answer && !Failed(rule)
    ensures NeverErrs(oracle) ==> forall i :: 0 <= i < rules ==> !Failed(report.results[i])
  {
    hide BatchOf;
    forall tick | 0 <= tick < |asks|
      ensures var rule := RuleAfter(oracle, asks[..tick], asks[tick], batchSize, budget);
              rule.affected < budget && 1 <= Limit(rule, batchSize, budget) <= batchSize
    {
      ProperPrefix(oracle, asks, rules, batchSize, budget, tick);
      RuleAfterOk(oracle, asks[..tick], rules, batchSize, budget, asks[tick]);
    }
    forall i | 0 <= i < rules
      ensures RuleOk(RuleAfter(oracle, asks, i, batchSize, budget), budget)
      ensures NeverErrs(oracle) ==> !Failed(RuleAfter(oracle, asks, i, batchSize, budget))
    {
      RuleAfterOk(oracle, asks, rules, batchSize, budget, i);
      FailuresExplained(oracle, asks, rules, batchSize, budget, i);
    }
    forall i | 0 <= i < rules && !oracle.expired(|asks|)
      ensures var rule := report.results[i];
              Failed(rule) || rule.affected == budget || RanOut(oracle, asks, i, batchSize, budget, rule.backlog)
    {
      StopExplained(oracle, asks, rules, batchSize, budget, i);
    }
  }

  /** The last deletion tried for the rule came back short at this moment: the database then had nothing left for
      it, or had something left but none of it could be deleted. */
  ghost predicate RanOutAt(oracle: Oracle, asks: seq<nat>, rule: nat, batchSize: nat, budget: nat, backlog: Option<bool>, tick: nat)
    requires tick < |asks|
  {
    && asks[tick] == rule && (forall later :: tick < later < |asks| ==> asks[later] != rule)
    && backlog == oracle.backlog(tick)
    && (backlog == Some(false)
        || (backlog == Some(true)
            && oracle.batch(tick, Limit(RuleAfter(oracle, asks[..tick], rule, batchSize, budget), batchSize, budget)) == Some(0)))
  }

  ghost predicate RanOut(oracle: Oracle, asks: seq<nat>, rule: nat, batchSize: nat, budget: nat, backlog: Option<bool>) {
    exists tick :: 0 <= tick < |asks| && RanOutAt(oracle, asks, rule, batchSize, budget, backlog, tick)
  }

  /** A rule that stopped without an error and below its budget did so on the database's word. */
  lemma {:induction false} StopExplained(oracle: Oracle, asks: seq<nat>, rules: nat, batchSize: nat, budget: nat, rule: nat)
    requires Honest(oracle) && batchSize >= 1 && budget >= 1 && Proper(oracle, asks, rules, batchSize, budget)
    ensures var r := RuleAfter(oracle, asks, rule, batchSize, budget);
      Stopped(r) && !Failed(r) && r.affected < budget ==> RanOut(oracle, asks, rule, batchSize, budget, r.backlog)
  {
    hide Limit, RuleOk, Proper, BatchOf;
    var r := RuleAfter(oracle, asks, rule, batchSize, budget);
    if asks == [] || !Stopped(r) || Failed(r) || r.affected >= budget {
    } else {
      var last := |asks| - 1;
      var front := asks[..last];
      ProperFront(oracle, asks, rules, batchSize, budget);
      if asks[last] == rule {
        ProperLast(oracle, asks, rules, batchSize, budget);
        RuleAfterOk(oracle, front, rules, batchSize, budget, rule);
        BatchStops(oracle, RuleAfter(oracle, front, rule, batchSize, budget), batchSize, budget, last);
        assert RanOutAt(oracle, asks, rule, batchSize, budget, r.backlog, last);
      } else {
        StopExplained(oracle, front, rules, batchSize, budget, rule);
        var tick :| 0 <= tick < |front| && RanOutAt(oracle, front, rule, batchSize, budget, r.backlog, tick);
        assert front[..tick] == asks[..tick];
        assert RanOutAt(oracle, asks, rule, batchSize, budget, r.backlog, tick);
      }
    }
  }

  lemma {:induction false} BatchStops(oracle: Oracle, rule: Rule, batchSize: nat, budget: nat, tick: nat)
    requires Honest(oracle) && batchSize >= 1 && RuleOk(rule, budget) && !Stopped(rule)
    ensures var next := BatchOf(oracle, rule, batchSize, budget, tick);
      Stopped(next) && !Failed(next) && next.affected < budget ==>
        && next.backlog == oracle.backlog(tick)
        && (next.backlog == Some(false) || (next.backlog == Some(true) && oracle.batch(tick, Limit(rule, batchSize, budget)) == Some(0)))
  {
    var next, limit := BatchOf(oracle, rule, batchSize, budget, tick), Limit(rule, batchSize, budget);
    assert limit >= 1;
    if Stopped(next) && !Failed(next) && next.affected < budget {
      var answer := oracle.batch(tick, limit);
      assert answer.Some? && answer.value < limit && next.lastBatch == answer.value;
      if next.backlog != Some(false) {
        assert next.backlog.value && answer.value == 0;
      }
    }
  }

  /** The database answers every question. */
  ghost predicate NeverErrs(oracle: Oracle) {
    (forall tick, limit :: oracle.batch(tick, limit).Some?) && forall tick :: oracle.backlog(tick).Some?
  }

  lemma {:induction false} ProperPrefix(oracle: Oracle, asks: seq<nat>, rules: nat, batchSize: nat, budget: nat, n: nat)
    requires Proper(oracle, asks, rules, batchSize, budget) && n <= |asks|
    ensures Proper(oracle, asks[..n], rules, batchSize, budget)
  {
    var front := asks[..n];
    forall tick | 0 <= tick < |front|
      ensures front[tick] < rules && !oracle.expired(tick) && !Stopped(RuleAfter(oracle, front[..tick], front[tick], batchSize, budget))
    {
      assert front[..tick] == asks[..tick] && front[tick] == asks[tick];
    }
  }

  // ---------------------------------------------------------------- the run

  /** The variables of a run. */
  datatype Progress = Progress(results: seq<Rule>, active: seq<bool>, remaining: int, total: nat, budgetReached: bool, asks: seq<nat>) {
    ghost predicate Ok(budget: nat) {
      && |results| == |active|
      && remaining == ActiveCount(active)
      && total == Total(results)
      && (forall i :: 0 <= i < |results| ==> RuleOk(results[i], budget) && active[i] == !Stopped(results[i]))
      && (budgetReached <==> AnyReached(results))
    }

    ghost function WorkLeft(budget: nat): nat
      requires Ok(budget)
    {
      Work(results, active, budget)
    }

    /** The bookkeeping after one batch of rule `i`. */
    function After(i: nat, next: Rule, on: bool): Progress
      requires i < |results| == |active| && results[i].affected <= next.affected
    {
      Progress(results[i := next], active[i := on], if on then remaining else remaining - 1,
               total + (next.affected - results[i].affected), budgetReached || next.budgetReached, asks + [i])
    }
  }

  /** The results are what the database answered. */
  ghost predicate Answered(oracle: Oracle, p: Progress, batchSize: nat, budget: nat) {
    && Proper(oracle, p.asks, |p.results|, batchSize, budget)
    && forall i :: 0 <= i < |p.results| ==> p.results[i] == RuleAfter(oracle, p.asks, i, batchSize, budget)
  }

  lemma {:induction false} AnsweredNext(oracle: Oracle, p: Progress, batchSize: nat, budget: nat, i: nat, next: Rule, on: bool)
    requires Answered(oracle, p, batchSize, budget) && i < |p.results| == |p.active| && !Stopped(p.results[i]) && !oracle.expired(|p.asks|)
    requires next == BatchOf(oracle, p.results[i], batchSize, budget, |p.asks|) && p.results[i].affected <= next.affected
    ensures Answered(oracle, p.After(i, next, on), batchSize, budget)
  {
    hide BatchOf, Stopped;
    ProperNext(oracle, p.asks, |p.results|, batchSize, budget, i);
    assert (p.asks + [i])[..|p.asks|] == p.asks;
  }

  lemma {:induction false} BudgetsReached(results: seq<Rule>, i: nat, next: Rule)
    requires i < |results| && !results[i].budgetReached
    ensures AnyReached(results[i := next]) <==> next.budgetReached || AnyReached(results)
  {
    var after := results[i := next];
    assert after[i] == next;
    assert forall j :: 0 <= j < |results| && j != i ==> after[j] == results[j];
  }

  lemma AfterKeeps(p: Progress, budget: nat, i: nat, next: Rule, on: bool)
    requires p.Ok(budget) && i < |p.results| && p.active[i]
    requires RuleOk(next, budget) && p.results[i].affected <= next.affected && on == !Stopped(next)
    requires on ==> p.results[i].affected < next.affected
    ensures p.After(i, next, on).Ok(budget)
    ensures p.After(i, next, on).WorkLeft(budget) < p.WorkLeft(budget)
  {
    TotalUpdate(p.results, i, next);
    BudgetsReached(p.results, i, next);
    ActiveCountUpdate(p.active, i, on);
    WorkUpdate(p.results, p.active, budget, i, next, on);
  }

  /** One pass over the rules. Unless time runs out, it leaves strictly less work. */
  method Round(oracle: Oracle, p: Progress, batchSize: nat, budget: nat) returns (q: Progress)
    requires Honest(oracle) && batchSize >= 1 && p.Ok(budget) && p.remaining > 0 && Answered(oracle, p, batchSize, budget)
    ensures q.Ok(budget) && |q.results| == |p.results| && Answered(oracle, q, batchSize, budget)
    ensures oracle.expired(|q.asks|) || q.WorkLeft(budget) < p.WorkLeft(budget)
  {
    hide Answered, BatchOf, RuleOk;
    q := p;
    SomeActive(p.active);
    for i := 0 to |p.results|
      invariant q.Ok(budget) && |q.results| == |p.results| && |q.asks| >= |p.asks| && Answered(oracle, q, batchSize, budget)
      invariant q.WorkLeft(budget) <= p.WorkLeft(budget)
      invariant q.WorkLeft(budget) < p.WorkLeft(budget) || oracle.expired(|q.asks|) || exists j :: i <= j < |q.active| && q.active[j]
    {
      if q.active[i] && !oracle.expired(|q.asks|) {
        var next, on := Batch(oracle, q.results[i], batchSize, budget, |q.asks|);
        AfterKeeps(q, budget, i, next, on);
        AnsweredNext(oracle, q, batchSize, budget, i, next, on);
        q := q.After(i, next, on);
      }
    }
  }

  /** The whole run. It terminates for every oracle, even one whose time never runs out. */
  method RunWithBudget(oracle: Oracle, rules: nat, batchSize: int, budget: int, maxRunTime: int)
    returns (r: Result<Report, string>, ghost asks: seq<nat>)
    requires Honest(oracle)
    ensures r.Err? <==> !(1 <= batchSize <= DEFAULT_BATCH_SIZE && budget >= 1 && maxRunTime > 0)
    ensures r.Ok? ==> ReportOk(oracle, r.value, asks, rules, batchSize, budget)
  {
    hide ReportOk, Answered, RuleOk, Stopped, Total, ActiveCount, AnyReached, Work;
    if batchSize < 1 || batchSize > DEFAULT_BATCH_SIZE {
      return Err("cleanup batch size must be between 1 and 500"), [];
    }
    if budget < 1 {
      return Err("cleanup row budget must be positive"), [];
    }
    if maxRunTime <= 0 {
      return Err("cleanup run time must be positive"), [];
    }
    var p := Progress(seq(rules, i => UNTOUCHED), seq(rules, i => true), rules, 0, false, []);
    NothingAsked(oracle, p, batchSize, budget);
    while p.remaining > 0 && !oracle.expired(|p.asks|)
      invariant p.Ok(budget) && |p.results| == rules && Answered(oracle, p, batchSize, budget)
      decreases if oracle.expired(|p.asks|) then 0 else 1 + p.WorkLeft(budget)
    {
      p := Round(oracle, p, batchSize, budget);
    }
    var results := FinalBacklogs(oracle, p.results, |p.asks|);
    Reported(oracle, p, results, batchSize, budget);
    return Ok(Report(results, p.total, p.budgetReached || oracle.expired(|p.asks|))), p.asks;
  }

  lemma {:induction false} NothingAsked(oracle: Oracle, p: Progress, batchSize: nat, budget: nat)
    requires budget >= 1 && p == Progress(seq(|p.results|, i => UNTOUCHED), seq(|p.results|, i => true), |p.results|, 0, false, [])
    ensures p.Ok(budget) && Answered(oracle, p, batchSize, budget)
  {
    AllOn(|p.results|);
    TotalZero(p.results);
  }

  lemma {:induction false} Reported(oracle: Oracle, p: Progress, results: seq<Rule>, batchSize: nat, budget: nat)
    requires p.Ok(budget) && (p.remaining == 0 || oracle.expired(|p.asks|)) && Answered(oracle, p, batchSize, budget)
    requires |results| == |p.results| && Total(results) == Total(p.results)
    requires forall i :: 0 <= i < |results| ==> results[i] == Closed(oracle, p.results[i], |p.asks| + i)
    ensures ReportOk(oracle, Report(results, p.total, p.budgetReached || oracle.expired(|p.asks|)), p.asks, |results|, batchSize, budget)
  {
    hide Proper, RuleAfter, RuleOk, Stopped;
    if p.remaining == 0 {
      NoneActive(p.active);
    }
    forall i | 0 <= i < |results|
      ensures results[i].budgetReached == p.results[i].budgetReached
    {
      assert results[i] == Closed(oracle, p.results[i], |p.asks| + i);
    }
    assert AnyReached(results) <==> AnyReached(p.results) by {
      if i :| 0 <= i < |p.results| && p.results[i].budgetReached {
        assert results[i].budgetReached;
      }
    }
  }

  lemma TotalZero(results: seq<Rule>)
    requires forall i :: 0 <= i < |results| ==> results[i].affected == 0
    ensures Total(results) == 0
  {
  }

  lemma NoneActive(active: seq<bool>)
    requires ActiveCount(active) == 0
    ensures forall i :: 0 <= i < |active| ==> !active[i]
  {
    if active == [] {
    } else {
      NoneActive(active[..|active| - 1]);
    }
  }

  /** The closing pass that asks for the backlog of every rule not yet known. */
  method FinalBacklogs(oracle: Oracle, results: seq<Rule>, tick: nat) returns (final: seq<Rule>)
    ensures |final| == |results| && Total(final) == Total(results)
    ensures forall i :: 0 <= i < |results| ==> final[i] == Closed(oracle, results[i], tick + i)
  {
    hide Total;
    final := results;
    for i := 0 to |results|
      invariant |final| == |results| && Total(final) == Total(results)
      invariant forall j :: 0 <= j < i ==> final[j] == Closed(oracle, results[j], tick + j)
      invariant forall j :: i <= j < |results| ==> final[j] == results[j]
    {
      if final[i].backlog.None? && !Failed(final[i]) && !oracle.expired(tick + i) {
        var backlog := oracle.backlog(tick + i);
        var rule := if backlog.None? then final[i].(failure := BacklogFailed) else final[i].(backlog := backlog);
        TotalUpdate(final, i, rule);
        final := final[i := rule];
      }
    }
  }
}
