/** Runs of the limiter: any sequence of its calls against the store of server/internal/ratelimit/ratelimit.go
    agrees with a reference that keeps every admission for ever and looks at nothing else. */
module LimiterRuns {
  import opened Basics
  import opened RateLimit

  /** One call, with the time its transaction reads and the expired rows the database happens to delete. */
  datatype Request =
    | Reserve(key: Key, route: RouteClass, now: Time, doomed: set<Slot>)
    | Finalize(reservation: Reservation, account: Option<Key>, now: Time)
    | Cancel(reservation: Reservation)
    | AllowAll(keys: seq<Key>, route: RouteClass, now: Time, doomed: set<Slot>)
    | Expire(now: Time, doomed: set<Slot>)

  /** Times never go back from one committed call to the next. */
  predicate Timely(requests: seq<Request>, clock: Time)
    decreases |requests|
  {
    requests == [] ||
    (if requests[0].Cancel? then Timely(requests[1..], clock)
     else clock <= requests[0].now && Timely(requests[1..], requests[0].now))
  }

  /** The time the last call read. */
  function LastTime(requests: seq<Request>, clock: Time): Time {
    if requests == [] then clock
    else
      var last := requests[|requests| - 1];
      if last.Cancel? then LastTime(requests[..|requests| - 1], clock) else last.now
  }

  // ---------------------------------------------------------------- the reference

  predicate HasRoom(history: map<Slot, seq<Time>>, slot: Slot, limit: nat, now: Time) {
    |Active(LogIn(history, slot), now)| < limit
  }

  function Added(history: map<Slot, seq<Time>>, slot: Slot, now: Time): map<Slot, seq<Time>> {
    history[slot := LogIn(history, slot) + [now]]
  }

  function AddedAll(history: map<Slot, seq<Time>>, slots: set<Slot>, now: Time): map<Slot, seq<Time>> {
    map slot | slot in history.Keys + slots :: LogIn(history, slot) + (if slot in slots then [now] else [])
  }

  function TakenBack(history: map<Slot, seq<Time>>, reservation: Reservation): map<Slot, seq<Time>> {
    history[reservation.slot := DropLast(LogIn(history, reservation.slot), reservation.recordedAt)]
  }

  function Wanted(keys: seq<Key>, route: RouteClass): set<Slot> {
    set key | key in keys && Usable(key) :: Slot(key, route)
  }

  /** What a call does to the full history: an admission is added exactly if the minute that ends now has
      room under every key, and a reservation that is given back is taken out. */
  function Recorded(limits: Limits, history: map<Slot, seq<Time>>, request: Request): map<Slot, seq<Time>> {
    match request
    case Reserve(key, route, now, _) =>
      if Usable(key) && key.scope == Credential && HasRoom(history, Slot(key, route), limits.For(route), now)
      then Added(history, Slot(key, route), now) else history
    case Finalize(reservation, account, now) =>
      if account.None? || !Usable(account.value) || account.value.scope != Account then history
      else
        var slot := Slot(account.value, reservation.slot.route);
        if HasRoom(history, slot, limits.For(slot.route), now) then Added(history, slot, now) else TakenBack(history, reservation)
    case Cancel(reservation) => TakenBack(history, reservation)
    case AllowAll(keys, route, now, _) =>
      if forall slot :: slot in Wanted(keys, route) ==> HasRoom(history, slot, limits.For(route), now)
      then AddedAll(history, Wanted(keys, route), now) else history
    case Expire(_, _) => history
  }

  function RecordedAll(limits: Limits, requests: seq<Request>): map<Slot, seq<Time>> {
    if requests == [] then map[]
    else Recorded(limits, RecordedAll(limits, requests[..|requests| - 1]), requests[|requests| - 1])
  }

  ghost predicate AllWithin(limits: Limits, history: map<Slot, seq<Time>>) {
    forall slot :: WithinLimit(LogIn(history, slot), limits.For(slot.route))
  }

  lemma {:induction false} AddedWithin(limits: Limits, history: map<Slot, seq<Time>>, slots: set<Slot>, now: Time)
    requires AllWithin(limits, history) && forall slot :: slot in slots ==> HasRoom(history, slot, limits.For(slot.route), now)
    ensures AllWithin(limits, AddedAll(history, slots, now))
  {
    forall slot
      ensures WithinLimit(LogIn(AddedAll(history, slots, now), slot), limits.For(slot.route))
    {
      var log := LogIn(history, slot);
      assert log + [] == log;
      if slot in slots {
        AdmissionStaysWithinLimit(log, now, limits.For(slot.route));
      }
    }
  }

  lemma {:induction false} OneAdded(history: map<Slot, seq<Time>>, slot: Slot, now: Time)
    ensures Added(history, slot, now) == AddedAll(history, {slot}, now)
  {
    forall other | other in history
      ensures LogIn(history, other) + [] == history[other]
    {
    }
  }

  lemma {:induction false} TakenBackWithin(limits: Limits, history: map<Slot, seq<Time>>, reservation: Reservation)
    requires AllWithin(limits, history)
    ensures AllWithin(limits, TakenBack(history, reservation))
  {
    var slot, t := reservation.slot, reservation.recordedAt;
    CancellationStaysWithinLimit(LogIn(history, slot), t, limits.For(slot.route));
    forall other | other != slot
      ensures LogIn(TakenBack(history, reservation), other) == LogIn(history, other)
    {
    }
  }

  lemma {:induction false} RecordedWithin(limits: Limits, history: map<Slot, seq<Time>>, request: Request)
    requires AllWithin(limits, history)
    ensures AllWithin(limits, Recorded(limits, history, request))
  {
    hide AllWithin;
    match request
    case Reserve(key, route, now, _) =>
      if HasRoom(history, Slot(key, route), limits.For(route), now) {
        OneAdded(history, Slot(key, route), now);
        AddedWithin(limits, history, {Slot(key, route)}, now);
      }
    case Finalize(reservation, account, now) =>
      if account.Some? {
        var slot := Slot(account.value, reservation.slot.route);
        OneAdded(history, slot, now);
        TakenBackWithin(limits, history, reservation);
        if HasRoom(history, slot, limits.For(slot.route), now) {
          AddedWithin(limits, history, {slot}, now);
        }
      }
    case Cancel(reservation) => TakenBackWithin(limits, history, reservation);
    case AllowAll(keys, route, now, _) =>
      if forall slot :: slot in Wanted(keys, route) ==> HasRoom(history, slot, limits.For(route), now) {
        AddedWithin(limits, history, Wanted(keys, route), now);
      }
    case Expire(_, _) =>
  }

  /** No minute holds more admissions than the setting for the class allows. */
  ghost predicate WithinSettings(limits: Limits, history: map<Slot, seq<Time>>) {
    forall slot: Slot, end: Time ::
      && (slot.route == AuthenticatedRead ==> InWindow(LogIn(history, slot), end) <= limits.readLimit)
      && (slot.route == AuthenticatedWrite ==> InWindow(LogIn(history, slot), end) <= limits.writeLimit)
      && (slot.route == PublicAuth ==> InWindow(LogIn(history, slot), end) <= limits.publicLimit)
  }

  /** After any calls, no key and class has more admissions that were not given back than its limit in any
      one-minute window. */
  lemma {:induction false} NoMinuteOverLimit(limits: Limits, requests: seq<Request>)
    ensures WithinSettings(limits, RecordedAll(limits, requests))
  {
    NoMinuteOver(limits, requests);
  }

  lemma {:induction false} NoMinuteOver(limits: Limits, requests: seq<Request>)
    ensures AllWithin(limits, RecordedAll(limits, requests))
    decreases |requests|
  {
    if requests == [] {
      forall slot
        ensures WithinLimit(LogIn(map[], slot), limits.For(slot.route))
      {
      }
    } else {
      var front := requests[..|requests| - 1];
      NoMinuteOver(limits, front);
      RecordedWithin(limits, RecordedAll(limits, front), requests[|requests| - 1]);
    }
  }

  // ---------------------------------------------------------------- the store agrees with it

  lemma {:induction false} AdmittedAll(history: map<Slot, seq<Time>>, slots: seq<Slot>, now: Time)
    requires Distinct(slots)
    ensures AdmitLogs(history, slots, now) == AddedAll(history, Elements(slots), now)
  {
    AdmitLogsKeys(history, slots, now);
    var logs := AdmitLogs(history, slots, now);
    forall slot | slot in logs
      ensures logs[slot] == LogIn(history, slot) + (if slot in Elements(slots) then [now] else [])
    {
      AdmitLogsMeans(history, slots, now, slot);
      assert LogIn(history, slot) + [] == LogIn(history, slot);
    }
  }

  lemma {:induction false} AdmitLogsKeys(history: map<Slot, seq<Time>>, slots: seq<Slot>, now: Time)
    ensures AdmitLogs(history, slots, now).Keys == history.Keys + Elements(slots)
  {
    if slots == [] {
    } else {
      var front := slots[..|slots| - 1];
      AdmitLogsKeys(history, front, now);
      assert slots == front + [slots[|slots| - 1]];
    }
  }

  /** One call on the store: its history changes as the reference's does. */
  method Perform(limiter: Limiter, request: Request)
    requires limiter.Valid() && (request.Cancel? || limiter.clock <= request.now)
    modifies limiter
    ensures limiter.Valid() && limiter.history == Recorded(limiter.limits, old(limiter.history), request)
    ensures request.Cancel? ==> limiter.clock == old(limiter.clock)
    ensures !request.Cancel? ==> limiter.clock == old(limiter.clock) || limiter.clock == request.now
  {
    hide StoreOk;
    match request
    case Reserve(key, route, now, doomed) =>
      var _ := limiter.ReserveCredential(key, route, now, doomed);
    case Finalize(reservation, account, now) =>
      var _ := limiter.FinalizeCredential(reservation, account, now);
    case Cancel(reservation) =>
      limiter.CancelCredential(reservation);
    case AllowAll(keys, route, now, doomed) =>
      ghost var history := limiter.history;
      var r, slots, logs := limiter.Allow(keys, route, now, doomed);
      AllowedIsRecorded(limiter.limits, history, keys, route, now, doomed, slots, logs);
    case Expire(now, doomed) =>
      limiter.Advance(now);
      limiter.DeleteExpired(now, doomed);
  }

  lemma {:induction false} AllowedIsRecorded(limits: Limits, history: map<Slot, seq<Time>>, keys: seq<Key>, route: RouteClass, now: Time, doomed: set<Slot>, slots: seq<Slot>, logs: seq<seq<Time>>)
    requires Distinct(slots) && forall slot :: slot in slots <==> slot.route == route && slot.key in keys && Usable(slot.key)
    requires |logs| == |slots| && forall i :: 0 <= i < |slots| ==> logs[i] == LogIn(history, slots[i])
    ensures Recorded(limits, history, AllowAll(keys, route, now, doomed))
         == if slots == [] || HaveRoom(Elements(logs), limits.For(route), now) then AdmitLogs(history, slots, now) else history
  {
    hide HasRoom, HaveRoom, AddedAll, AdmitLogs, Wanted;
    WantedSlots(keys, route, slots);
    AdmittedAll(history, slots, now);
    RoomUnderAll(limits, history, route, now, slots, logs);
    if slots == [] {
      NoKeys(history, limits.For(route), now);
    }
  }

  lemma {:induction false} WantedSlots(keys: seq<Key>, route: RouteClass, slots: seq<Slot>)
    requires forall slot :: slot in slots <==> slot.route == route && slot.key in keys && Usable(slot.key)
    ensures Elements(slots) == Wanted(keys, route)
  {
    forall slot
      ensures slot in Wanted(keys, route) <==> slot in slots
    {
      if slot in slots {
        assert slot == Slot(slot.key, route);
      }
    }
  }

  lemma {:induction false} NoKeys(history: map<Slot, seq<Time>>, limit: nat, now: Time)
    ensures HaveRoom(Elements([]), limit, now) && AdmitLogs(history, [], now) == history
  {
  }

  lemma {:induction false} RoomUnderAll(limits: Limits, history: map<Slot, seq<Time>>, route: RouteClass, now: Time, slots: seq<Slot>, logs: seq<seq<Time>>)
    requires |logs| == |slots| && forall i :: 0 <= i < |slots| ==> logs[i] == LogIn(history, slots[i])
    ensures (forall slot :: slot in Elements(slots) ==> HasRoom(history, slot, limits.For(route), now))
       <==> HaveRoom(Elements(logs), limits.For(route), now)
  {
    if HaveRoom(Elements(logs), limits.For(route), now) {
      forall slot | slot in Elements(slots)
        ensures HasRoom(history, slot, limits.For(route), now)
      {
        var i :| 0 <= i < |slots| && slots[i] == slot;
        assert logs[i] in Elements(logs);
      }
    }
    if forall slot :: slot in Elements(slots) ==> HasRoom(history, slot, limits.For(route), now) {
      forall log | log in Elements(logs)
        ensures |Active(log, now)| < limits.For(route)
      {
        var i :| 0 <= i < |logs| && logs[i] == log;
        assert slots[i] in Elements(slots);
      }
    }
  }

  lemma {:induction false} TimelyRest(requests: seq<Request>, i: nat, clock: Time)
    requires i < |requests| && Timely(requests[i..], clock)
    ensures requests[i].Cancel? || clock <= requests[i].now
    ensures Timely(requests[i + 1..], if requests[i].Cancel? then clock else requests[i].now)
  {
    assert requests[i..][0] == requests[i] && requests[i..][1..] == requests[i + 1..];
  }

  lemma {:induction false} TimelyEarlier(requests: seq<Request>, clock: Time, earlier: Time)
    requires Timely(requests, clock) && earlier <= clock
    ensures Timely(requests, earlier)
    decreases |requests|
  {
    if requests == [] {
    } else if requests[0].Cancel? {
      TimelyEarlier(requests[1..], clock, earlier);
    }
  }

  /** Any calls on an empty store. Pruned, rewritten, expired and given back as it is, at every later moment
      each stored log holds exactly the admissions of the last minute that the reference knows, and no
      minute holds more than the limit. */
  method PerformAll(limiter: Limiter, requests: seq<Request>)
    requires limiter.Valid() && limiter.rows == map[] && limiter.history == map[] && Timely(requests, limiter.clock)
    modifies limiter
    ensures WithinSettings(limiter.limits, RecordedAll(limiter.limits, requests))
    ensures forall slot, now :: LastTime(requests, old(limiter.clock)) <= now ==>
      Active(TimesOf(RowIn(limiter.rows, slot)), now) == Active(LogIn(RecordedAll(limiter.limits, requests), slot), now)
  {
    hide StoreOk, Recorded, WithinSettings;
    assert requests[0..] == requests && requests[..0] == [];
    for i := 0 to |requests|
      invariant limiter.Valid() && limiter.history == RecordedAll(limiter.limits, requests[..i])
      invariant Timely(requests[i..], limiter.clock) && limiter.clock <= LastTime(requests[..i], old(limiter.clock))
    {
      TimelyRest(requests, i, limiter.clock);
      ghost var before := limiter.clock;
      Perform(limiter, requests[i]);
      if limiter.clock == before && !requests[i].Cancel? {
        TimelyEarlier(requests[i + 1..], requests[i].now, before);
      }
      assert requests[..i + 1][..i] == requests[..i];
    }
    assert requests[..|requests|] == requests;
    NoMinuteOverLimit(limiter.limits, requests);
    forall slot, now | LastTime(requests, old(limiter.clock)) <= now
      ensures Active(TimesOf(RowIn(limiter.rows, slot)), now) == Active(LogIn(limiter.history, slot), now)
    {
      LimitHolds(limiter.rows, limiter.history, limiter.clock, limiter.limits, slot, now);
    }
  }
}
