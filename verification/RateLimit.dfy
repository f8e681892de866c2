/** The sliding-window limiter of server/internal/ratelimit/ratelimit.go.

    The stored state is a map of rows, each a log of request times with an expiry.
    Rows are pruned, rewritten and deleted; the full history of admissions that were
    never cancelled is kept beside them as a ghost. `Valid()` says the two agree on the
    last minute and that no minute holds more admissions than the limit.

    Times and durations are integers in nanoseconds. The clock each transaction reads is
    a parameter that never goes back from one committed transaction to the next. */
module RateLimit {
  import opened Basics

  type Time = int

  const SECOND: int := 1_000_000_000
  const WINDOW: int := 60 * SECOND

  datatype Scope = Account | Credential | IP
  datatype RouteClass = AuthenticatedRead | AuthenticatedWrite | PublicAuth

  /** A key as a caller names it. */
  datatype Key = Key(scope: Scope, value: string)

  /** One stored log. The hash of a key is modelled as the key itself. */
  datatype Slot = Slot(key: Key, route: RouteClass)

  datatype Row = Row(times: seq<Time>, expires: Time)

  datatype Decision = Decision(allowed: bool, limit: nat, remaining: int, retryAfter: int)

  datatype Reservation = Reservation(slot: Slot, recordedAt: Time)

  // ---------------------------------------------------------------- logs

  ghost predicate Sorted(s: seq<Time>) {
    forall i, j :: 0 <= i < j < |s| ==> s[i] <= s[j]
  }

  ghost predicate AtMost(s: seq<Time>, bound: Time) {
    forall i :: 0 <= i < |s| ==> s[i] <= bound
  }

  ghost predicate Above(s: seq<Time>, bound: Time) {
    forall i :: 0 <= i < |s| ==> s[i] > bound
  }

  /** The entries of a log still inside the window that ends at `now`. */
  function Active(s: seq<Time>, now: Time): seq<Time> {
    if s == [] then []
    else (if s[0] > now - WINDOW then [s[0]] else []) + Active(s[1..], now)
  }

  /** How many entries fall in the minute that ends at `end`. */
  function InWindow(s: seq<Time>, end: Time): nat {
    if s == [] then 0
    else (if end - WINDOW < s[0] <= end then 1 else 0) + InWindow(s[1..], end)
  }

  /** `s` without the last entry equal to `t`. */
  function DropLast(s: seq<Time>, t: Time): seq<Time> {
    if s == [] then []
    else if s[|s| - 1] == t then s[..|s| - 1]
    else DropLast(s[..|s| - 1], t) + [s[|s| - 1]]
  }

  function Inserted(s: seq<Time>, t: Time): seq<Time> {
    if s == [] || t < s[0] then [t] + s else [s[0]] + Inserted(s[1..], t)
  }

  /** Any sorting of a log of times yields this sequence. */
  function SortedTimes(s: seq<Time>): seq<Time> {
    if s == [] then [] else Inserted(SortedTimes(s[..|s| - 1]), s[|s| - 1])
  }

  function Expiry(s: seq<Time>): Option<Time> {
    if s == [] then None else Some(s[|s| - 1] + WINDOW)
  }

  function RetryAfter(s: seq<Time>, limit: nat, now: Time): int
    requires 1 <= limit <= |s|
  {
    s[|s| - limit] + WINDOW - now
  }

  /** Whole seconds advertised for a wait, rounded up and never below one. */
  function RetryAfterSeconds(duration: int): (seconds: int)
    ensures seconds >= 1
    ensures seconds * SECOND >= duration
    ensures seconds == 1 || (seconds - 1) * SECOND < duration
  {
    var whole := (duration + SECOND - 1) / SECOND;
    if whole < 1 then 1 else whole
  }

  // ---------------------------------------------------------------- facts about logs

  lemma InsertedLast(s: seq<Time>, t: Time)
    requires AtMost(s, t)
    ensures Inserted(s, t) == s + [t]
  {
    if s == [] {
    } else {
      InsertedLast(s[1..], t);
      assert s == [s[0]] + s[1..];
    }
  }

  /** Sorting a log that is already in order changes nothing. */
  lemma SortedTimesFixed(s: seq<Time>)
    requires Sorted(s)
    ensures SortedTimes(s) == s
  {
    if s == [] {
    } else {
      var rest := s[..|s| - 1];
      SortedTimesFixed(rest);
      InsertedLast(rest, s[|s| - 1]);
      assert s == rest + [s[|s| - 1]];
    }
  }

  lemma ActiveAppend(a: seq<Time>, b: seq<Time>, now: Time)
    ensures Active(a + b, now) == Active(a, now) + Active(b, now)
  {
    if a == [] {
      assert a + b == b;
    } else {
      assert (a + b)[1..] == a[1..] + b;
      ActiveAppend(a[1..], b, now);
    }
  }

  lemma {:induction false} ActiveSnoc(s: seq<Time>, last: Time, now: Time)
    ensures Active(s + [last], now) == if last > now - WINDOW then Active(s, now) + [last] else Active(s, now)
  {
    ActiveAppend(s, [last], now);
    assert Active([last], now) == if last > now - WINDOW then [last] else [];
  }

  lemma ActiveShorter(s: seq<Time>, now: Time)
    ensures |Active(s, now)| <= |s|
  {
  }

  ghost predicate Within(s: seq<Time>, low: Time, high: Time) {
    forall i :: 0 <= i < |s| ==> low <= s[i] <= high
  }

  lemma {:induction false} ActiveBounded(s: seq<Time>, now: Time, low: Time, high: Time)
    requires Sorted(s) && Within(s, low, high)
    ensures Sorted(Active(s, now)) && Within(Active(s, now), low, high) && Above(Active(s, now), now - WINDOW)
  {
    if s == [] {
    } else {
      ActiveBounded(s[1..], now, s[0], high);
    }
  }

  /** Pruning keeps the order, keeps bounds from above and leaves only live entries. */
  lemma {:induction false} ActiveKeeps(s: seq<Time>, now: Time, bound: Time)
    requires Sorted(s) && AtMost(s, bound)
    ensures Sorted(Active(s, now)) && AtMost(Active(s, now), bound) && Above(Active(s, now), now - WINDOW)
  {
    if s != [] {
      ActiveBounded(s, now, s[0], bound);
    }
  }

  /** Pruning at an earlier moment loses nothing a later moment would keep. */
  lemma ActiveLater(s: seq<Time>, early: Time, late: Time)
    requires early <= late
    ensures Active(Active(s, early), late) == Active(s, late)
  {
    if s == [] {
    } else {
      ActiveLater(s[1..], early, late);
      ActiveAppend(if s[0] > early - WINDOW then [s[0]] else [], Active(s[1..], early), late);
    }
  }

  lemma ActiveNone(s: seq<Time>, now: Time)
    requires AtMost(s, now - WINDOW)
    ensures Active(s, now) == []
  {
  }

  lemma ActiveAll(s: seq<Time>, now: Time)
    requires Above(s, now - WINDOW)
    ensures Active(s, now) == s
  {
    if s == [] {
    } else {
      ActiveAll(s[1..], now);
      assert s == [s[0]] + s[1..];
    }
  }

  lemma {:induction false} DropLastAppend(s: seq<Time>, last: Time, t: Time)
    ensures DropLast(s + [last], t) == if last == t then s else DropLast(s, t) + [last]
  {
    assert (s + [last])[..|s|] == s;
  }

  /** Dropping an entry commutes with pruning: an entry still in the window is dropped
      from what pruning keeps, and an entry outside it was gone already. */
  lemma {:induction false} ActiveDropLast(s: seq<Time>, t: Time, now: Time)
    ensures Active(DropLast(s, t), now)
         == if t > now - WINDOW then DropLast(Active(s, now), t) else Active(s, now)
  {
    if s == [] {
    } else {
      var front, last := s[..|s| - 1], s[|s| - 1];
      assert s == front + [last];
      ActiveSnoc(front, last, now);
      ActiveDropLast(front, t, now);
      ActiveSnoc(DropLast(front, t), last, now);
      DropLastAppend(Active(front, now), last, t);
    }
  }

  /** What dropping one entry keeps of a log. */
  lemma DropLastKeeps(s: seq<Time>, t: Time, bound: Time)
    requires Sorted(s) && AtMost(s, bound)
    ensures Sorted(DropLast(s, t)) && AtMost(DropLast(s, t), bound)
  {
    if s == [] || s[|s| - 1] == t {
    } else {
      DropLastKeeps(s[..|s| - 1], t, s[|s| - 1]);
    }
  }

  /** Dropping removes exactly one occurrence, when there is one. */
  lemma DropLastRemovesOne(s: seq<Time>, t: Time)
    ensures multiset(DropLast(s, t)) == multiset(s) - multiset{t}
  {
    if s == [] {
    } else {
      var front, last := s[..|s| - 1], s[|s| - 1];
      assert s == front + [last];
      if last != t {
        DropLastRemovesOne(front, t);
      }
    }
  }

  lemma InWindowAppend(a: seq<Time>, b: seq<Time>, end: Time)
    ensures InWindow(a + b, end) == InWindow(a, end) + InWindow(b, end)
  {
    if a == [] {
      assert a + b == b;
    } else {
      assert (a + b)[1..] == a[1..] + b;
      InWindowAppend(a[1..], b, end);
    }
  }

  lemma InWindowDropLast(s: seq<Time>, t: Time, end: Time)
    ensures InWindow(DropLast(s, t), end) <= InWindow(s, end)
  {
    if s == [] {
    } else {
      var front, last := s[..|s| - 1], s[|s| - 1];
      assert s == front + [last];
      InWindowAppend(front, [last], end);
      if last != t {
        InWindowDropLast(front, t, end);
        InWindowAppend(DropLast(front, t), [last], end);
      }
    }
  }

  /** A minute that ends no earlier than `now` holds at most what is active at `now`. */
  lemma InWindowAtMostActive(s: seq<Time>, now: Time, end: Time)
    requires now <= end
    ensures InWindow(s, end) <= |Active(s, now)|
  {
    if s == [] {
    } else {
      InWindowAtMostActive(s[1..], now, end);
    }
  }

  ghost predicate WithinLimit(s: seq<Time>, limit: nat) {
    forall end :: InWindow(s, end) <= limit
  }

  /** Admitting one request while fewer than `limit` are active keeps every minute of the
      whole history within the limit, not only the minute that ends now. */
  lemma {:induction false} AdmissionStaysWithinLimit(s: seq<Time>, now: Time, limit: nat)
    requires WithinLimit(s, limit)
    requires |Active(s, now)| < limit
    ensures WithinLimit(s + [now], limit)
  {
    forall end
      ensures InWindow(s + [now], end) <= limit
    {
      InWindowAppend(s, [now], end);
      if now <= end {
        InWindowAtMostActive(s, now, end);
      }
    }
  }

  lemma {:induction false} CancellationStaysWithinLimit(s: seq<Time>, t: Time, limit: nat)
    requires WithinLimit(s, limit)
    ensures WithinLimit(DropLast(s, t), limit)
  {
    forall end
      ensures InWindow(DropLast(s, t), end) <= limit
    {
      InWindowDropLast(s, t, end);
    }
  }

  lemma {:induction false} ActiveTail(s: seq<Time>, k: nat, now: Time)
    requires Sorted(s) && k < |s|
    ensures s[k] > now - WINDOW ==> |Active(s, now)| >= |s| - k
    ensures s[k] <= now - WINDOW ==> |Active(s, now)| < |s| - k
  {
    assert s == s[..k] + s[k..];
    ActiveAppend(s[..k], s[k..], now);
    if s[k] > now - WINDOW {
      ActiveAll(s[k..], now);
    } else {
      ActiveNone(s[..k], now);
      ActiveShorter(s[k + 1..], now);
      assert s[k..][1..] == s[k + 1..];
    }
  }

  /** The wait a refusal advertises is positive and is the least wait after which the log
      has room again, however much longer than the limit the log is. */
  lemma {:induction false} RetryAfterIsLeast(s: seq<Time>, limit: nat, now: Time)
    requires Sorted(s) && 1 <= limit <= |s| && Above(s, now - WINDOW)
    ensures RetryAfter(s, limit, now) > 0
    ensures forall at :: |Active(s, at)| < limit <==> at - now >= RetryAfter(s, limit, now)
  {
    forall at
      ensures |Active(s, at)| < limit <==> at - now >= RetryAfter(s, limit, now)
    {
      ActiveTail(s, |s| - limit, at);
    }
  }

  /** The same, read off the whole history instead of the pruned log. */
  lemma {:induction false} RefusalIsLeast(history: seq<Time>, limit: nat, now: Time)
    requires Sorted(history) && AtMost(history, now)
    requires 1 <= limit <= |Active(history, now)|
    ensures var retry := RetryAfter(Active(history, now), limit, now);
            && retry > 0
            && (forall at :: |Active(history, at)| < limit && at >= now <==> at - now >= retry)
            && |Active(history, now + RetryAfterSeconds(retry) * SECOND)| < limit
  {
    var active := Active(history, now);
    ActiveKeeps(history, now, now);
    RetryAfterIsLeast(active, limit, now);
    var retry := RetryAfter(active, limit, now);
    forall at | at >= now
      ensures |Active(history, at)| < limit <==> at - now >= retry
    {
      ActiveLater(history, now, at);
    }
  }

  function PositiveRetry(live: seq<Time>, limit: nat, now: Time): int
    requires 1 <= limit <= |live|
  {
    var retry := RetryAfter(live, limit, now);
    if retry <= 0 then SECOND else retry
  }

  /** The answer to a request that finds `live` admissions in the window. */
  function DecisionFor(live: seq<Time>, limit: nat, now: Time): Decision
    requires limit >= 1
  {
    if |live| < limit then Decision(true, limit, limit - |live| - 1, 0)
    else Decision(false, limit, 0, PositiveRetry(live, limit, now))
  }

  ghost predicate HaveRoom(logs: set<seq<Time>>, limit: nat, at: Time) {
    forall log :: log in logs ==> |Active(log, at)| < limit
  }

  /** Waiting `wait` is enough, and nothing shorter is, if nothing else arrives. */
  ghost predicate IsLeastWait(wait: int, logs: set<seq<Time>>, limit: nat, now: Time) {
    && wait > 0
    && forall at :: at >= now ==> (HaveRoom(logs, limit, at) <==> at - now >= wait)
  }

  /** The largest of the waits of the full keys is the least wait after which all have room. */
  lemma {:induction false} LargestWaitIsLeast(wait: int, logs: set<seq<Time>>, limit: nat, now: Time)
    requires limit >= 1
    requires forall log :: log in logs ==> Sorted(log) && AtMost(log, now)
    requires forall log :: log in logs && |Active(log, now)| >= limit ==> RetryAfter(Active(log, now), limit, now) <= wait
    requires exists log :: log in logs && |Active(log, now)| >= limit && RetryAfter(Active(log, now), limit, now) == wait
    ensures IsLeastWait(wait, logs, limit, now)
  {
    var full :| full in logs && |Active(full, now)| >= limit && RetryAfter(Active(full, now), limit, now) == wait;
    RefusalIsLeast(full, limit, now);
    forall at | at >= now
      ensures HaveRoom(logs, limit, at) <==> at - now >= wait
    {
      if HaveRoom(logs, limit, at) {
        assert |Active(full, at)| < limit;
      }
      if at - now >= wait {
        forall log | log in logs
          ensures |Active(log, at)| < limit
        {
          if |Active(log, now)| >= limit {
            RefusalIsLeast(log, limit, now);
          } else {
            ActiveLater(log, now, at);
            ActiveShorter(Active(log, now), at);
          }
        }
      }
    }
  }

  /** A refusal under one key advertises exactly the least wait. */
  lemma {:induction false} DecisionIsLeastWait(log: seq<Time>, limit: nat, now: Time)
    requires limit >= 1 && Sorted(log) && AtMost(log, now)
    requires !DecisionFor(Active(log, now), limit, now).allowed
    ensures IsLeastWait(DecisionFor(Active(log, now), limit, now).retryAfter, {log}, limit, now)
  {
    RefusalIsLeast(log, limit, now);
    LargestWaitIsLeast(RetryAfter(Active(log, now), limit, now), {log}, limit, now);
  }

  // ---------------------------------------------------------------- keys

  predicate Usable(key: Key) {
    key.value != ""
  }

  /** The distinct usable keys of a request. The source also sorts them, which only fixes
      the order in which rows are locked. */
  method NormalizedKeys(keys: seq<Key>, route: RouteClass) returns (slots: seq<Slot>)
    ensures Distinct(slots)
    ensures forall slot :: slot in slots <==> slot.route == route && slot.key in keys && Usable(slot.key)
  {
    slots := [];
    for i := 0 to |keys|
      invariant Distinct(slots)
      invariant forall slot :: slot in slots <==> slot.route == route && slot.key in keys[..i] && Usable(slot.key)
    {
      var slot := Slot(keys[i], route);
      assert keys[..i + 1] == keys[..i] + [keys[i]];
      if Usable(keys[i]) && slot !in slots {
        slots := slots + [slot];
      }
    }
    assert keys[..|keys|] == keys;
  }

  // ---------------------------------------------------------------- one slot

  /** What every transaction keeps about one slot: its stored row, if any, and the full
      history of admissions that were not cancelled.
      - both logs are in order and hold nothing from the future;
      - a row never expires while one of its entries is live;
      - row and history name the same admissions of the last minute;
      - no minute of the history holds more than the limit. */
  ghost predicate SlotOk(row: Option<Row>, history: seq<Time>, clock: Time, limit: nat) {
    && (row.Some? ==> RowOk(row.value, clock))
    && LogOk(history, clock, limit)
    && Active(TimesOf(row), clock) == Active(history, clock)
  }

  ghost predicate RowOk(row: Row, clock: Time) {
    Sorted(row.times) && AtMost(row.times, clock) && AtMost(row.times, row.expires - WINDOW)
  }

  ghost predicate LogOk(log: seq<Time>, clock: Time, limit: nat) {
    Sorted(log) && AtMost(log, clock) && WithinLimit(log, limit)
  }

  function TimesOf(row: Option<Row>): seq<Time> {
    if row.Some? then row.value.times else []
  }

  /** The stored log gives the live admissions for every later moment. */
  lemma {:induction false} SlotAgreesLater(row: Option<Row>, history: seq<Time>, clock: Time, now: Time, limit: nat)
    requires SlotOk(row, history, clock, limit) && clock <= now
    ensures Active(TimesOf(row), now) == Active(history, now)
    ensures SlotOk(row, history, now, limit)
  {
    ActiveLater(TimesOf(row), clock, now);
    ActiveLater(history, clock, now);
  }

  lemma {:induction false} SlotSurvivesExpiry(row: Row, history: seq<Time>, now: Time, limit: nat)
    requires SlotOk(Some(row), history, now, limit) && row.expires <= now
    ensures SlotOk(None, history, now, limit)
  {
    ActiveNone(row.times, now);
  }

  lemma {:induction false} SortedSnoc(s: seq<Time>, t: Time)
    requires Sorted(s) && AtMost(s, t)
    ensures Sorted(s + [t]) && AtMost(s + [t], t)
  {
  }

  lemma {:induction false} SlotAdmits(row: Row, history: seq<Time>, now: Time, limit: nat)
    requires SlotOk(Some(row), history, now, limit)
    requires |Active(history, now)| < limit
    ensures var times := Active(history, now) + [now];
            && SortedTimes(times) == times
            && SlotOk(Some(Row(times, now + WINDOW)), history + [now], now, limit)
  {
    var active := Active(history, now);
    assert Sorted(active + [now]) && AtMost(active + [now], now) && Active(active + [now], now) == active + [now] by {
      ActiveKeeps(history, now, now);
      SortedSnoc(active, now);
      ActiveAll(active, now);
      ActiveSnoc(active, now, now);
    }
    SortedTimesFixed(active + [now]);
    assert LogOk(history + [now], now, limit) by {
      SortedSnoc(history, now);
      AdmissionStaysWithinLimit(history, now, limit);
    }
    ActiveSnoc(history, now, now);
  }

  lemma {:induction false} LastBounds(s: seq<Time>)
    requires Sorted(s) && s != []
    ensures AtMost(s, s[|s| - 1])
  {
  }

  /** Writing the pruned log back, as a refused `Allow` does. */
  lemma {:induction false} SlotPrunes(row: Row, history: seq<Time>, now: Time, limit: nat)
    requires SlotOk(Some(row), history, now, limit)
    ensures var times := Active(history, now);
            SlotOk(Some(Row(times, if times == [] then row.expires else Expiry(times).value)), history, now, limit)
  {
    var times := Active(history, now);
    ActiveKeeps(history, now, now);
    if times != [] {
      LastBounds(times);
    }
    ActiveLater(history, now, now);
  }

  function CancelledRow(row: Row, t: Time): Row {
    var times := DropLast(row.times, t);
    Row(times, if times == [] then row.expires else Expiry(times).value)
  }

  lemma {:induction false} SlotCancels(row: Option<Row>, history: seq<Time>, clock: Time, limit: nat, t: Time)
    requires SlotOk(row, history, clock, limit)
    ensures SlotOk(if row.None? then None else Some(CancelledRow(row.value, t)), DropLast(history, t), clock, limit)
  {
    assert LogOk(DropLast(history, t), clock, limit) by {
      DropLastKeeps(history, t, clock);
      CancellationStaysWithinLimit(history, t, limit);
    }
    if row.Some? {
      var times := DropLast(row.value.times, t);
      DropLastKeeps(row.value.times, t, clock);
      if times != [] {
        LastBounds(times);
      }
      assert RowOk(CancelledRow(row.value, t), clock);
    }
    ActiveDropLast(TimesOf(row), t, clock);
    ActiveDropLast(history, t, clock);
  }

  // ---------------------------------------------------------------- all slots

  datatype Limits = Limits(readLimit: nat, writeLimit: nat, publicLimit: nat) {
    predicate Positive() {
      readLimit >= 1 && writeLimit >= 1 && publicLimit >= 1
    }

    function For(route: RouteClass): nat {
      match route
      case AuthenticatedRead => readLimit
      case AuthenticatedWrite => writeLimit
      case PublicAuth => publicLimit
    }
  }

  /** The setting a class of routes is limited by. */
  ghost predicate IsLimit(limits: Limits, route: RouteClass, limit: nat) {
    && (route == AuthenticatedRead ==> limit == limits.readLimit)
    && (route == AuthenticatedWrite ==> limit == limits.writeLimit)
    && (route == PublicAuth ==> limit == limits.publicLimit)
  }

  lemma {:induction false} ForIsLimit(limits: Limits, route: RouteClass)
    ensures IsLimit(limits, route, limits.For(route))
  {
  }

  /** A decision under one key: admitted exactly if fewer than the limit were admitted in the last minute, with the
      number still to come, and otherwise with the least wait. */
  ghost predicate Answers(decision: Decision, limits: Limits, route: RouteClass, log: seq<Time>, now: Time) {
    && IsLimit(limits, route, decision.limit)
    && (decision.allowed <==> |Active(log, now)| < decision.limit)
    && (decision.allowed ==> decision.remaining == decision.limit - |Active(log, now)| - 1 && decision.retryAfter == 0)
    && (!decision.allowed ==> decision.remaining == 0 && IsLeastWait(decision.retryAfter, {log}, decision.limit, now))
  }

  lemma {:induction false} DecisionAnswers(rows: map<Slot, Row>, history: map<Slot, seq<Time>>, now: Time, limits: Limits, slot: Slot)
    requires limits.Positive() && StoreOk(rows, history, now, limits)
    ensures Answers(DecisionFor(Active(LogIn(history, slot), now), limits.For(slot.route), now), limits, slot.route, LogIn(history, slot), now)
  {
    hide IsLeastWait, SlotOk;
    var log := LogIn(history, slot);
    assert SlotOk(RowIn(rows, slot), log, now, limits.For(slot.route));
    SlotInOrder(RowIn(rows, slot), log, now, limits.For(slot.route));
    if |Active(log, now)| >= limits.For(slot.route) {
      DecisionIsLeastWait(log, limits.For(slot.route), now);
    }
  }

  lemma {:induction false} SlotInOrder(row: Option<Row>, history: seq<Time>, clock: Time, limit: nat)
    requires SlotOk(row, history, clock, limit)
    ensures Sorted(history) && AtMost(history, clock)
  {
  }

  function RowIn(rows: map<Slot, Row>, slot: Slot): Option<Row> {
    if slot in rows then Some(rows[slot]) else None
  }

  function LogIn(history: map<Slot, seq<Time>>, slot: Slot): seq<Time> {
    if slot in history then history[slot] else []
  }

  ghost predicate StoreOk(rows: map<Slot, Row>, history: map<Slot, seq<Time>>, clock: Time, limits: Limits) {
    forall slot :: SlotOk(RowIn(rows, slot), LogIn(history, slot), clock, limits.For(slot.route))
  }

  /** Rewriting one row and its history in step keeps the store. */
  lemma {:induction false} PutKeeps(rows: map<Slot, Row>, history: map<Slot, seq<Time>>, clock: Time, limits: Limits,
                 slot: Slot, row: Row, log: seq<Time>)
    requires StoreOk(rows, history, clock, limits)
    requires SlotOk(Some(row), log, clock, limits.For(slot.route))
    ensures StoreOk(rows[slot := row], history[slot := log], clock, limits)
    ensures log == LogIn(history, slot) ==> StoreOk(rows[slot := row], history, clock, limits)
  {
    forall other | other != slot
      ensures RowIn(rows[slot := row], other) == RowIn(rows, other)
      ensures LogIn(history[slot := log], other) == LogIn(history, other)
    {
    }
  }

  /** Storing an admission keeps the store and grows the history by it. */
  lemma {:induction false} AdmitKeeps(rows: map<Slot, Row>, history: map<Slot, seq<Time>>, now: Time, limits: Limits, slot: Slot)
    requires StoreOk(rows, history, now, limits) && slot in rows
    requires |Active(LogIn(history, slot), now)| < limits.For(slot.route)
    ensures var times := Active(LogIn(history, slot), now) + [now];
            && SortedTimes(times) == times
            && StoreOk(rows[slot := Row(times, now + WINDOW)], history[slot := LogIn(history, slot) + [now]], now, limits)
  {
    var log := LogIn(history, slot);
    assert SlotOk(RowIn(rows, slot), log, now, limits.For(slot.route));
    SlotAdmits(rows[slot], log, now, limits.For(slot.route));
    PutKeeps(rows, history, now, limits, slot, Row(Active(log, now) + [now], now + WINDOW), log + [now]);
  }

  /** Giving a reservation back keeps the store, whether or not its row is still there. */
  lemma {:induction false} CancelKeeps(rows: map<Slot, Row>, history: map<Slot, seq<Time>>, clock: Time, limits: Limits, slot: Slot, t: Time)
    requires StoreOk(rows, history, clock, limits)
    ensures var rows' := if slot in rows then rows[slot := CancelledRow(rows[slot], t)] else rows;
            StoreOk(rows', history[slot := DropLast(LogIn(history, slot), t)], clock, limits)
  {
    var log := DropLast(LogIn(history, slot), t);
    assert SlotOk(RowIn(rows, slot), LogIn(history, slot), clock, limits.For(slot.route));
    SlotCancels(RowIn(rows, slot), LogIn(history, slot), clock, limits.For(slot.route), t);
    if slot in rows {
      PutKeeps(rows, history, clock, limits, slot, CancelledRow(rows[slot], t), log);
    } else {
      forall other | other != slot
        ensures LogIn(history[slot := log], other) == LogIn(history, other)
      {
      }
    }
  }

  /** Writing a pruned log back keeps the store. */
  lemma {:induction false} PruneKeeps(rows: map<Slot, Row>, history: map<Slot, seq<Time>>, now: Time, limits: Limits, slot: Slot)
    requires StoreOk(rows, history, now, limits) && slot in rows
    ensures var times := Active(LogIn(history, slot), now);
            StoreOk(rows[slot := Row(times, if times == [] then rows[slot].expires else Expiry(times).value)], history, now, limits)
  {
    var log := LogIn(history, slot);
    assert SlotOk(RowIn(rows, slot), log, now, limits.For(slot.route));
    SlotPrunes(rows[slot], log, now, limits.For(slot.route));
    var times := Active(log, now);
    PutKeeps(rows, history, now, limits, slot, Row(times, if times == [] then rows[slot].expires else Expiry(times).value), log);
  }

  /** The history after one admission under each of several slots. */
  function AdmitLogs(history: map<Slot, seq<Time>>, slots: seq<Slot>, now: Time): map<Slot, seq<Time>> {
    if slots == [] then history
    else
      var before := AdmitLogs(history, slots[..|slots| - 1], now);
      var slot := slots[|slots| - 1];
      before[slot := LogIn(before, slot) + [now]]
  }

  lemma {:induction false} AdmitLogsMeans(history: map<Slot, seq<Time>>, slots: seq<Slot>, now: Time, slot: Slot)
    requires Distinct(slots)
    ensures LogIn(AdmitLogs(history, slots, now), slot)
         == if slot in slots then LogIn(history, slot) + [now] else LogIn(history, slot)
  {
    if slots == [] {
    } else {
      var front := slots[..|slots| - 1];
      AdmitLogsMeans(history, front, now, slot);
      assert slots == front + [slots[|slots| - 1]];
      assert slots[|slots| - 1] !in front;
    }
  }

  lemma {:induction false} AdvanceKeeps(rows: map<Slot, Row>, history: map<Slot, seq<Time>>, clock: Time, limits: Limits, now: Time)
    requires StoreOk(rows, history, clock, limits) && clock <= now
    ensures StoreOk(rows, history, now, limits)
  {
    forall slot
      ensures SlotOk(RowIn(rows, slot), LogIn(history, slot), now, limits.For(slot.route))
    {
      SlotAgreesLater(RowIn(rows, slot), LogIn(history, slot), clock, now, limits.For(slot.route));
    }
  }

  function Unexpired(rows: map<Slot, Row>, now: Time, doomed: set<Slot>): map<Slot, Row> {
    map slot | slot in rows && !(slot in doomed && rows[slot].expires <= now) :: rows[slot]
  }

  /** Deleting expired rows, whichever of them the database picks, loses no live admission. */
  lemma {:induction false} DeletionKeeps(rows: map<Slot, Row>, history: map<Slot, seq<Time>>, now: Time, limits: Limits, doomed: set<Slot>)
    requires StoreOk(rows, history, now, limits)
    ensures StoreOk(Unexpired(rows, now, doomed), history, now, limits)
  {
    var kept := Unexpired(rows, now, doomed);
    forall slot
      ensures SlotOk(RowIn(kept, slot), LogIn(history, slot), now, limits.For(slot.route))
    {
      assert SlotOk(RowIn(rows, slot), LogIn(history, slot), now, limits.For(slot.route));
      if slot in rows && slot !in kept {
        SlotSurvivesExpiry(rows[slot], LogIn(history, slot), now, limits.For(slot.route));
      }
    }
  }

  /** What the limiter is for: no slot ever has more admissions than its limit in any one
      minute, and the stored log gives the exact live admissions at every later moment. */
  lemma {:induction false} LimitHolds(rows: map<Slot, Row>, history: map<Slot, seq<Time>>, clock: Time, limits: Limits, slot: Slot, now: Time)
    requires StoreOk(rows, history, clock, limits) && now >= clock
    ensures forall end :: InWindow(LogIn(history, slot), end) <= limits.For(slot.route)
    ensures Active(TimesOf(RowIn(rows, slot)), now) == Active(LogIn(history, slot), now)
  {
    assert SlotOk(RowIn(rows, slot), LogIn(history, slot), clock, limits.For(slot.route));
    SlotAgreesLater(RowIn(rows, slot), LogIn(history, slot), clock, now, limits.For(slot.route));
  }

  // ---------------------------------------------------------------- several keys

  /** A decision over several live logs: allowed when none is full, and otherwise waiting for
      the slowest of the full ones. */
  ghost predicate IsJoint(decision: Decision, states: seq<seq<Time>>, now: Time)
    requires decision.limit >= 1
  {
    && (decision.allowed <==> forall i :: 0 <= i < |states| ==> |states[i]| < decision.limit)
    && (!decision.allowed ==>
          && (forall i :: 0 <= i < |states| && |states[i]| >= decision.limit ==>
                RetryAfter(states[i], decision.limit, now) <= decision.retryAfter)
          && exists i :: 0 <= i < |states| && |states[i]| >= decision.limit
                && decision.retryAfter == PositiveRetry(states[i], decision.limit, now))
  }

  /** The loop that combines the keys of one request. */
  method JointDecision(states: seq<seq<Time>>, limit: nat, now: Time) returns (decision: Decision)
    requires limit >= 1
    ensures decision.limit == limit && IsJoint(decision, states, now)
    ensures !decision.allowed ==> decision.remaining == 0
    ensures decision.allowed ==> forall i :: 0 <= i < |states| ==> decision.remaining < limit - |states[i]|
    ensures decision.allowed && states != [] ==> exists i :: 0 <= i < |states| && decision.remaining == limit - |states[i]| - 1
  {
    var allowed, remaining, retryAfter := true, limit as int, 0;
    for i := 0 to |states|
      invariant retryAfter >= 0
      invariant allowed <==> forall j :: 0 <= j < i ==> |states[j]| < limit
      invariant forall j :: 0 <= j < i ==> remaining <= limit - |states[j]|
      invariant remaining == limit || exists j :: 0 <= j < i && remaining == limit - |states[j]|
      invariant forall j :: 0 <= j < i && |states[j]| >= limit ==> RetryAfter(states[j], limit, now) <= retryAfter
      invariant retryAfter > 0 ==> exists j :: 0 <= j < i && |states[j]| >= limit && RetryAfter(states[j], limit, now) == retryAfter
    {
      if limit - |states[i]| < remaining {
        remaining := limit - |states[i]|;
      }
      if |states[i]| >= limit {
        allowed := false;
        var retry := RetryAfter(states[i], limit, now);
        if retry > retryAfter {
          retryAfter := retry;
        }
      }
    }
    if allowed {
      assert states != [] ==> remaining <= limit - |states[0]|;
      assert states != [] ==> exists j :: 0 <= j < |states| && remaining == limit - |states[j]|;
      return Decision(true, limit, remaining - 1, retryAfter);
    }
    if retryAfter <= 0 {
      var i :| 0 <= i < |states| && |states[i]| >= limit;
      assert PositiveRetry(states[i], limit, now) == SECOND;
      retryAfter := SECOND;
    }
    return Decision(false, limit, 0, retryAfter);
  }

  /** What is left under the fullest of several keys after one more admission under each. */
  ghost predicate IsRemaining(remaining: int, logs: seq<seq<Time>>, limit: nat, now: Time) {
    && (forall i :: 0 <= i < |logs| ==> remaining <= limit - |Active(logs[i], now)| - 1)
    && (logs != [] ==> exists i :: 0 <= i < |logs| && remaining == limit - |Active(logs[i], now)| - 1)
  }

  /** A joint decision over the live logs means the same over the full histories. */
  lemma {:induction false} JointDecisionMeans(logs: seq<seq<Time>>, states: seq<seq<Time>>, decision: Decision, now: Time)
    requires |logs| == |states| && decision.limit >= 1
    requires forall i :: 0 <= i < |logs| ==> Sorted(logs[i]) && AtMost(logs[i], now) && states[i] == Active(logs[i], now)
    requires IsJoint(decision, states, now)
    ensures decision.allowed <==> HaveRoom(Elements(logs), decision.limit, now)
    ensures !decision.allowed ==> IsLeastWait(decision.retryAfter, Elements(logs), decision.limit, now)
  {
    if decision.allowed {
      forall log | log in Elements(logs)
        ensures |Active(log, now)| < decision.limit
      {
        var i :| 0 <= i < |logs| && logs[i] == log;
        assert |states[i]| < decision.limit;
      }
    } else {
      var i :| 0 <= i < |states| && |states[i]| >= decision.limit
            && decision.retryAfter == PositiveRetry(states[i], decision.limit, now);
      assert logs[i] in Elements(logs);
      RefusalIsLeast(logs[i], decision.limit, now);
      forall log | log in Elements(logs) && |Active(log, now)| >= decision.limit
        ensures RetryAfter(Active(log, now), decision.limit, now) <= decision.retryAfter
      {
        var j :| 0 <= j < |logs| && logs[j] == log;
        assert states[j] == Active(log, now);
      }
      LargestWaitIsLeast(decision.retryAfter, Elements(logs), decision.limit, now);
    }
  }

  lemma {:induction false} RemainingMeans(logs: seq<seq<Time>>, states: seq<seq<Time>>, decision: Decision, now: Time)
    requires |logs| == |states| && forall i :: 0 <= i < |logs| ==> states[i] == Active(logs[i], now)
    requires forall i :: 0 <= i < |states| ==> decision.remaining < decision.limit - |states[i]|
    requires states != [] ==> exists i :: 0 <= i < |states| && decision.remaining == decision.limit - |states[i]| - 1
    ensures IsRemaining(decision.remaining, logs, decision.limit, now)
  {
    if states != [] {
      var i :| 0 <= i < |states| && decision.remaining == decision.limit - |states[i]| - 1;
      assert decision.remaining == decision.limit - |Active(logs[i], now)| - 1;
    }
  }

  // ---------------------------------------------------------------- stored state

  class Limiter {
    const limits: Limits
    var rows: map<Slot, Row>
    /** Every admission that was not cancelled, per slot, in commit order. */
    ghost var history: map<Slot, seq<Time>>
    /** The latest time any committed transaction read. */
    ghost var clock: Time

    ghost function History(slot: Slot): seq<Time>
      reads this
    {
      LogIn(history, slot)
    }

    ghost predicate Valid()
      reads this
    {
      limits.Positive() && StoreOk(rows, history, clock, limits)
    }

    constructor (limits: Limits)
      requires limits.Positive()
      ensures Valid() && rows == map[] && history == map[] && clock == 0 && this.limits == limits
    {
      this.limits := limits;
      rows, history, clock := map[], map[], 0;
    }

    /** Reading the clock keeps everything. */
    ghost method Advance(now: Time)
      requires Valid() && clock <= now
      modifies `clock
      ensures Valid() && clock == now
    {
      AdvanceKeeps(rows, history, clock, limits, now);
      clock := now;
    }

    /** Deletes those of the given rows that have expired. */
    method DeleteExpired(now: Time, doomed: set<Slot>)
      requires Valid() && clock == now
      modifies `rows
      ensures Valid() && rows.Keys <= old(rows.Keys)
      ensures forall slot :: slot in old(rows) ==> (slot in rows <==> slot !in doomed || old(rows)[slot].expires > now)
      ensures forall slot :: slot in rows ==> rows[slot] == old(rows)[slot]
    {
      DeletionKeeps(rows, history, now, limits, doomed);
      rows := Unexpired(rows, now, doomed);
    }

    /** Makes sure the row exists and returns its live entries in order. */
    method LockedState(slot: Slot, now: Time) returns (active: seq<Time>)
      requires Valid() && clock == now
      modifies `rows
      ensures Valid() && slot in rows && forall other :: other in old(rows) ==> other in rows
      ensures active == Active(History(slot), now)
    {
      assert SlotOk(RowIn(rows, slot), History(slot), now, limits.For(slot.route));
      if slot !in rows {
        var row := Row([], now + WINDOW);
        PutKeeps(rows, history, now, limits, slot, row, History(slot));
        rows := rows[slot := row];
      }
      var recorded := rows[slot].times;
      active := Pruned(recorded, now);
      ActiveKeeps(recorded, now, now);
      SortedTimesFixed(active);
      active := SortedTimes(active);
    }

    /** Stores an admission: the live log with `now` at its end. The history grows by it. */
    method Admit(slot: Slot, active: seq<Time>, now: Time)
      requires Valid() && clock == now && slot in rows
      requires active == Active(History(slot), now) && |active| < limits.For(slot.route)
      modifies `rows, `history
      ensures Valid() && rows.Keys == old(rows.Keys)
      ensures history == old(history)[slot := old(History(slot)) + [now]]
    {
      hide StoreOk;
      AdmitKeeps(rows, history, now, limits, slot);
      var times := SortedTimes(active + [now]);
      var row := Row(times, Expiry(times).value);
      assert row == Row(active + [now], now + WINDOW);
      rows := rows[slot := row];
      history := history[slot := History(slot) + [now]];
    }

    /** Takes one slot for a credential before the user behind it is known. */
    method ReserveCredential(key: Key, route: RouteClass, now: Time, doomed: set<Slot>)
      returns (r: Result<(Option<Reservation>, Decision), string>)
      requires Valid() && clock <= now
      modifies this
      ensures Valid()
      ensures r.Err? <==> !(Usable(key) && key.scope == Credential)
      ensures r.Err? ==> unchanged(this)
      ensures r.Ok? ==>
        var slot := Slot(key, route);
        var (reservation, decision) := r.value;
        && clock == now
        && decision == DecisionFor(Active(old(History(slot)), now), limits.For(route), now)
        && Answers(decision, limits, route, old(History(slot)), now)
        && reservation == (if decision.allowed then Some(Reservation(slot, now)) else None)
        && history == (if decision.allowed then old(history)[slot := old(History(slot)) + [now]] else old(history))
    {
      if !(Usable(key) && key.scope == Credential) {
        return Err("credential rate limit key is required");
      }
      var slot := Slot(key, route);
      Advance(now);
      DecisionAnswers(rows, history, now, limits, slot);
      DeleteExpired(now, doomed);
      var active := LockedState(slot, now);
      var decision := DecisionFor(active, limits.For(route), now);
      if !decision.allowed {
        return Ok((None, decision));
      }
      Admit(slot, active, now);
      return Ok((Some(Reservation(slot, now)), decision));
    }

    /** Removes the last recorded entry equal to the reservation's time, if it is still there. */
    method RemoveReservation(reservation: Reservation)
      requires Valid()
      modifies `rows, `history
      ensures Valid()
      ensures history == old(history)[reservation.slot := DropLast(old(History(reservation.slot)), reservation.recordedAt)]
    {
      var slot, t := reservation.slot, reservation.recordedAt;
      CancelKeeps(rows, history, clock, limits, slot, t);
      if slot in rows {
        var recorded := DropLastTime(rows[slot].times, t);
        var expires := if recorded == [] then rows[slot].expires else Expiry(recorded).value;
        rows := rows[slot := Row(recorded, expires)];
      }
      history := history[slot := DropLast(History(slot), t)];
    }

    /** Gives a reserved slot back. */
    method CancelCredential(reservation: Reservation)
      requires Valid()
      modifies `rows, `history
      ensures Valid()
      ensures history == old(history)[reservation.slot := DropLast(old(History(reservation.slot)), reservation.recordedAt)]
    {
      RemoveReservation(reservation);
    }

    /** Admits the account behind a reserved credential, or gives the reservation back. */
    method FinalizeCredential(reservation: Reservation, account: Option<Key>, now: Time)
      returns (r: Result<Option<Decision>, string>)
      requires Valid() && clock <= now
      modifies this
      ensures Valid()
      ensures r.Err? <==> account.Some? && !(Usable(account.value) && account.value.scope == Account)
      ensures r.Err? || account.None? ==> unchanged(this)
      ensures r.Ok? ==> (r.value.None? <==> account.None?)
      ensures r.Ok? && account.Some? ==>
        var slot := Slot(account.value, reservation.slot.route);
        var decision := r.value.value;
        && clock == now
        && decision == DecisionFor(Active(old(History(slot)), now), limits.For(slot.route), now)
        && Answers(decision, limits, slot.route, old(History(slot)), now)
        && history == (if decision.allowed then old(history)[slot := old(History(slot)) + [now]]
                       else old(history)[reservation.slot := DropLast(old(History(reservation.slot)), reservation.recordedAt)])
    {
      if account.None? {
        return Ok(None);
      }
      if !(Usable(account.value) && account.value.scope == Account) {
        return Err("account rate limit key is required");
      }
      var slot := Slot(account.value, reservation.slot.route);
      Advance(now);
      DecisionAnswers(rows, history, now, limits, slot);
      var active := LockedState(slot, now);
      var decision := DecisionFor(active, limits.For(slot.route), now);
      if decision.allowed {
        Admit(slot, active, now);
      } else {
        RemoveReservation(reservation);
      }
      return Ok(Some(decision));
    }

    /** Admits a request under several keys at once: all of them have room, or none is used. */
    method Allow(keys: seq<Key>, route: RouteClass, now: Time, doomed: set<Slot>)
      returns (r: Result<Decision, string>, ghost slots: seq<Slot>, ghost logs: seq<seq<Time>>)
      requires Valid() && clock <= now
      modifies this
      ensures Valid()
      ensures Distinct(slots)
      ensures forall slot :: slot in slots <==> slot.route == route && slot.key in keys && Usable(slot.key)
      ensures |logs| == |slots| && forall i :: 0 <= i < |slots| ==> logs[i] == old(History(slots[i]))
      ensures r.Err? <==> slots == []
      ensures r.Err? ==> unchanged(this)
      ensures r.Ok? ==>
        && clock == now
        && IsLimit(limits, route, r.value.limit)
        && (r.value.allowed <==> HaveRoom(Elements(logs), r.value.limit, now))
        && (r.value.allowed ==> IsRemaining(r.value.remaining, logs, r.value.limit, now))
        && (!r.value.allowed ==> r.value.remaining == 0 && IsLeastWait(r.value.retryAfter, Elements(logs), r.value.limit, now))
        && r.value.limit == limits.For(route)
        && history == (if r.value.allowed then AdmitLogs(old(history), slots, now) else old(history))
    {
      var wanted := NormalizedKeys(keys, route);
      slots := wanted;
      logs := seq(|wanted|, i requires 0 <= i < |wanted| reads this => History(wanted[i]));
      if |wanted| == 0 {
        return Err("rate limit key is required"), slots, logs;
      }
      Advance(now);
      DeleteExpired(now, doomed);
      var states := LockedStates(wanted, now);
      var decision := JointDecision(states, limits.For(route), now);
      forall i | 0 <= i < |wanted|
        ensures Sorted(logs[i]) && AtMost(logs[i], now) && states[i] == Active(logs[i], now)
      {
        assert SlotOk(RowIn(rows, wanted[i]), History(wanted[i]), now, limits.For(wanted[i].route));
      }
      JointDecisionMeans(logs, states, decision, now);
      ForIsLimit(limits, route);
      if decision.allowed {
        RemainingMeans(logs, states, decision, now);
      }
      if decision.allowed {
        assert forall i :: 0 <= i < |wanted| ==> wanted[i] in wanted && wanted[i].route == route;
        AdmitAll(wanted, states, now);
      } else {
        PruneAll(wanted, states, now);
      }
      return Ok(decision), slots, logs;
    }

    /** The live entries of every key, read in turn. */
    method LockedStates(slots: seq<Slot>, now: Time) returns (states: seq<seq<Time>>)
      requires Valid() && clock == now
      modifies `rows
      ensures Valid() && |states| == |slots|
      ensures forall i :: 0 <= i < |slots| ==> slots[i] in rows && states[i] == Active(History(slots[i]), now)
    {
      states := [];
      for i := 0 to |slots|
        invariant Valid() && |states| == i
        invariant forall j :: 0 <= j < i ==> slots[j] in rows
        invariant forall j :: 0 <= j < i ==> states[j] == Active(History(slots[j]), now)
      {
        var active := LockedState(slots[i], now);
        states := states + [active];
      }
    }

    method AdmitAll(slots: seq<Slot>, states: seq<seq<Time>>, now: Time)
      requires Valid() && clock == now && Distinct(slots) && |slots| == |states|
      requires forall i :: 0 <= i < |slots| ==>
        slots[i] in rows && states[i] == Active(History(slots[i]), now) && |states[i]| < limits.For(slots[i].route)
      modifies `rows, `history
      ensures Valid() && history == AdmitLogs(old(history), slots, now)
    {
      for i := 0 to |slots|
        invariant Valid() && rows.Keys == old(rows.Keys)
        invariant history == AdmitLogs(old(history), slots[..i], now)
      {
        assert slots[..i + 1][..i] == slots[..i];
        assert slots[i] !in slots[..i];
        AdmitLogsMeans(old(history), slots[..i], now, slots[i]);
        Admit(slots[i], states[i], now);
      }
      assert slots[..|slots|] == slots;
    }

    /** A refused request still writes the pruned logs back. */
    method PruneAll(slots: seq<Slot>, states: seq<seq<Time>>, now: Time)
      requires Valid() && clock == now && |slots| == |states|
      requires forall i :: 0 <= i < |slots| ==> slots[i] in rows && states[i] == Active(History(slots[i]), now)
      modifies `rows
      ensures Valid()
    {
      hide StoreOk;
      for i := 0 to |slots|
        invariant Valid() && rows.Keys == old(rows.Keys)
      {
        var slot, times := slots[i], states[i];
        PruneKeeps(rows, history, now, limits, slot);
        var row := Row(times, if times == [] then rows[slot].expires else Expiry(times).value);
        rows := rows[slot := row];
      }
    }
  }

  /** The loop that keeps only live entries. */
  method Pruned(recorded: seq<Time>, now: Time) returns (active: seq<Time>)
    ensures active == Active(recorded, now)
  {
    active := [];
    for i := 0 to |recorded|
      invariant active == Active(recorded[..i], now)
    {
      assert recorded[..i + 1] == recorded[..i] + [recorded[i]];
      ActiveAppend(recorded[..i], [recorded[i]], now);
      if recorded[i] > now - WINDOW {
        active := active + [recorded[i]];
      }
    }
    assert recorded[..|recorded|] == recorded;
  }

  /** The backward scan that removes one recorded time. */
  method DropLastTime(times: seq<Time>, t: Time) returns (recorded: seq<Time>)
    ensures recorded == DropLast(times, t)
  {
    recorded := times;
    var index := |times| - 1;
    assert times[..|times|] == times;
    while index >= 0
      invariant -1 <= index < |times|
      invariant recorded == times
      invariant DropLast(times, t) == DropLast(times[..index + 1], t) + times[index + 1..]
    {
      assert times[..index + 1][..index] == times[..index];
      if times[index] == t {
        recorded := times[..index] + times[index + 1..];
        return;
      }
      assert times[index..] == [times[index]] + times[index + 1..];
      index := index - 1;
    }
    assert times[..0] == [];
  }
}
