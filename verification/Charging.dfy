/** What the calls of authenticating requests do to the limiter itself: `Authentication` accounts for a
    request by its calls, and here the calls are made on the store of
    server/internal/ratelimit/ratelimit.go. */
module Charging {
  import opened Basics
  import opened Authentication
  import RateLimit

  // ---------------------------------------------------------------- slots

  /** The credential names of server/internal/auth/auth.go: the kind of token and its hash. */
  function NameOf(c: Credential): string {
    match c
    case SessionToken(hash) => "session:" + hash
    case BearerToken(hash) => "bearer:" + hash
  }

  function SlotOf(c: Credential, route: RateLimit.RouteClass): RateLimit.Slot {
    RateLimit.Slot(RateLimit.Key(RateLimit.Credential, NameOf(c)), route)
  }

  function AccountSlotOf(user: string, route: RateLimit.RouteClass): RateLimit.Slot {
    RateLimit.Slot(RateLimit.Key(RateLimit.Account, user), route)
  }

  /** Different credentials have different slots. */
  lemma {:induction false} SlotsDiffer(c: Credential, d: Credential, route: RateLimit.RouteClass)
    ensures SlotOf(c, route) == SlotOf(d, route) ==> c == d
    ensures NameOf(c) != ""
  {
    assert NameOf(c)[0] == if c.SessionToken? then 's' else 'b';
    assert NameOf(d)[0] == if d.SessionToken? then 's' else 'b';
    assert NameOf(c)[if c.SessionToken? then 8 else 7..] == c.hash;
    assert NameOf(d)[if d.SessionToken? then 8 else 7..] == d.hash;
  }

  // ---------------------------------------------------------------- one call

  type Logs = map<RateLimit.Slot, seq<RateLimit.Time>>

  /** The last minute of a slot has room. */
  predicate HasRoom(limits: RateLimit.Limits, history: Logs, slot: RateLimit.Slot, now: RateLimit.Time) {
    |RateLimit.Active(RateLimit.LogIn(history, slot), now)| < limits.For(slot.route)
  }

  /** The limiter, holding this history, answers the call as the call records: it admits what the call says was
      admitted and refuses what it says was refused. */
  predicate Occurs(limits: RateLimit.Limits, history: Logs, call: Call, route: RateLimit.RouteClass, now: RateLimit.Time) {
    match call
    case ReserveCall(c, at) => at == now && HasRoom(limits, history, SlotOf(c, route), now)
    case CancelCall(_, _) => true
    case FinalizeCall(_, _, account, accepted) =>
      account.None? || (account.value != "" && accepted == HasRoom(limits, history, AccountSlotOf(account.value, route), now))
  }

  /** The history after a call that occurs. */
  function HistoryAfter(history: Logs, call: Call, route: RateLimit.RouteClass, now: RateLimit.Time): Logs {
    var slot := SlotOf(call.credential, route);
    match call
    case ReserveCall(_, at) => history[slot := RateLimit.LogIn(history, slot) + [at]]
    case CancelCall(_, at) => history[slot := RateLimit.DropLast(RateLimit.LogIn(history, slot), at)]
    case FinalizeCall(_, at, account, accepted) =>
      if account.None? then history
      else if accepted then
        var own := AccountSlotOf(account.value, route);
        history[own := RateLimit.LogIn(history, own) + [now]]
      else history[slot := RateLimit.DropLast(RateLimit.LogIn(history, slot), at)]
  }

  /** Slot by slot, a call changes the log of its credential as the call log says, and lets every account grow
      by what it says. */
  lemma {:induction false} CredentialFollows(history: Logs, call: Call, route: RateLimit.RouteClass, now: RateLimit.Time, c: Credential)
    ensures RateLimit.LogIn(HistoryAfter(history, call, route, now), SlotOf(c, route)) == NextLog(RateLimit.LogIn(history, SlotOf(c, route)), call, c)
  {
    SlotsDiffer(call.credential, c, route);
  }

  lemma {:induction false} AccountFollows(history: Logs, call: Call, route: RateLimit.RouteClass, now: RateLimit.Time, user: string)
    ensures |RateLimit.LogIn(HistoryAfter(history, call, route, now), AccountSlotOf(user, route))|
         == |RateLimit.LogIn(history, AccountSlotOf(user, route))| + Effect(call, AccountSlot(user))
  {
  }

  /** Makes a call on the limiter. It says whether the limiter answered as the call records, and if so the
      history is the one the call leads to. */
  method PerformCall(limiter: RateLimit.Limiter, call: Call, route: RateLimit.RouteClass, now: RateLimit.Time, doomed: set<RateLimit.Slot>)
    returns (happened: bool)
    requires limiter.Valid() && limiter.clock <= now
    modifies limiter
    ensures limiter.Valid() && limiter.clock <= now
    ensures happened <==> Occurs(limiter.limits, old(limiter.history), call, route, now)
    ensures happened ==> limiter.history == HistoryAfter(old(limiter.history), call, route, now)
  {
    hide RateLimit.StoreOk;
    SlotsDiffer(call.credential, call.credential, route);
    var slot := SlotOf(call.credential, route);
    match call
    case ReserveCall(c, at) =>
      if at != now {
        return false;
      }
      var r := limiter.ReserveCredential(slot.key, route, now, doomed);
      return r.value.1.allowed;
    case CancelCall(c, at) =>
      limiter.CancelCredential(RateLimit.Reservation(slot, at));
      return true;
    case FinalizeCall(c, at, account, accepted) =>
      if account.None? {
        return true;
      }
      var r := limiter.FinalizeCredential(RateLimit.Reservation(slot, at), Some(RateLimit.Key(RateLimit.Account, account.value)), now);
      return r.Ok? && r.value.value.allowed == accepted;
  }

  // ---------------------------------------------------------------- many calls

  /** The history of an empty limiter after some calls that occur. */
  function HistoryOf(calls: seq<Call>, nows: seq<RateLimit.Time>, route: RateLimit.RouteClass): Logs
    requires |nows| == |calls|
  {
    if calls == [] then map[]
    else
      var n := |calls| - 1;
      HistoryAfter(HistoryOf(calls[..n], nows[..n], route), calls[n], route, nows[n])
  }

  predicate AllOccur(limits: RateLimit.Limits, calls: seq<Call>, nows: seq<RateLimit.Time>, route: RateLimit.RouteClass)
    requires |nows| == |calls|
  {
    calls == [] ||
    (var n := |calls| - 1;
     AllOccur(limits, calls[..n], nows[..n], route) && Occurs(limits, HistoryOf(calls[..n], nows[..n], route), calls[n], route, nows[n]))
  }

  lemma {:induction false} OccurSoFar(limits: RateLimit.Limits, calls: seq<Call>, nows: seq<RateLimit.Time>, route: RateLimit.RouteClass, n: nat)
    requires |nows| == |calls| && n <= |calls| && AllOccur(limits, calls, nows, route)
    ensures AllOccur(limits, calls[..n], nows[..n], route)
    decreases |calls|
  {
    hide Occurs;
    if n == |calls| {
      assert calls[..n] == calls && nows[..n] == nows;
    } else {
      var last := |calls| - 1;
      OccurSoFar(limits, calls[..last], nows[..last], route, n);
      assert calls[..last][..n] == calls[..n] && nows[..last][..n] == nows[..n];
    }
  }

  /** After any calls, every credential's log is the one the calls produce, and every account has as many
      admissions as they consumed. */
  lemma {:induction false} CredentialLogs(calls: seq<Call>, nows: seq<RateLimit.Time>, route: RateLimit.RouteClass, c: Credential)
    requires |nows| == |calls|
    ensures RateLimit.LogIn(HistoryOf(calls, nows, route), SlotOf(c, route)) == LogAfter(calls, c)
  {
    hide HistoryAfter, NextLog;
    if calls == [] {
    } else {
      var n := |calls| - 1;
      CredentialLogs(calls[..n], nows[..n], route, c);
      CredentialFollows(HistoryOf(calls[..n], nows[..n], route), calls[n], route, nows[n], c);
    }
  }

  lemma {:induction false} AccountLogs(calls: seq<Call>, nows: seq<RateLimit.Time>, route: RateLimit.RouteClass, user: string)
    requires |nows| == |calls|
    ensures |RateLimit.LogIn(HistoryOf(calls, nows, route), AccountSlotOf(user, route))| == Consumed(calls, AccountSlot(user))
  {
    hide HistoryAfter, Effect;
    if calls == [] {
    } else {
      var n := |calls| - 1;
      AccountLogs(calls[..n], nows[..n], route, user);
      AccountFollows(HistoryOf(calls[..n], nows[..n], route), calls[n], route, nows[n], user);
    }
  }

  /** Makes calls in the order in which they were committed, on an empty limiter, until one is not answered as
      it records; it says whether there was none, and if so what the limiter holds. */
  method PerformCalls(limiter: RateLimit.Limiter, calls: seq<Call>, route: RateLimit.RouteClass, nows: seq<RateLimit.Time>) returns (happened: bool)
    requires limiter.Valid() && limiter.history == map[] && |nows| == |calls|
    requires forall i :: 0 <= i < |nows| ==> limiter.clock <= nows[i]
    requires forall i, j :: 0 <= i < j < |nows| ==> nows[i] <= nows[j]
    modifies limiter
    ensures limiter.Valid()
    ensures happened <==> AllOccur(limiter.limits, calls, nows, route)
    ensures happened ==> limiter.history == HistoryOf(calls, nows, route)
  {
    hide RateLimit.StoreOk, Occurs, HistoryAfter;
    for i := 0 to |calls|
      invariant limiter.Valid() && limiter.history == HistoryOf(calls[..i], nows[..i], route)
      invariant AllOccur(limiter.limits, calls[..i], nows[..i], route)
      invariant forall j :: i <= j < |nows| ==> limiter.clock <= nows[j]
    {
      assert calls[..i + 1][..i] == calls[..i] && nows[..i + 1][..i] == nows[..i];
      var ok := PerformCall(limiter, calls[i], route, nows[i], {});
      if !ok {
        if AllOccur(limiter.limits, calls, nows, route) {
          OccurSoFar(limiter.limits, calls, nows, route, i + 1);
        }
        return false;
      }
    }
    assert calls[..|calls|] == calls && nows[..|nows|] == nows;
    return true;
  }

  // ---------------------------------------------------------------- requests

  /** What is consumed splits into one request's part and everybody else's. */
  lemma {:induction false} ConsumedSplits(tagged: Tagged, request: nat, slot: Spent)
    ensures Consumed(Calls(tagged), slot) == Consumed(Calls(Of(tagged, request, false)), slot) + Consumed(Calls(Of(tagged, request, true)), slot)
  {
    hide Effect;
    if tagged == [] {
    } else {
      var front, last := tagged[..|tagged| - 1], tagged[|tagged| - 1];
      ConsumedSplits(front, request, slot);
      ConsumedSnoc(Calls(front), last.1, slot);
      var others := last.0 != request;
      CallsSnoc(Of(front, request, others), last);
      ConsumedSnoc(Calls(Of(front, request, others)), last.1, slot);
      assert Of(front, request, !others) + [] == Of(front, request, !others);
    }
  }

  /** However the calls of authenticating requests interleave on the limiter: what it holds under each credential
      and each account is what all others consumed, plus the one slot under each credential and each
      account that this request was charged. An admitted request is charged its credential and its
      account, a refused or failed one nothing. */
  lemma {:induction false} RequestAddsItsCharges(tagged: Tagged, nows: seq<RateLimit.Time>, route: RateLimit.RouteClass,
                                                 request: nat, credentials: set<Credential>, users: set<string>)
    requires EachBracketed(tagged) && |nows| == |Calls(tagged)|
    requires Charges(Calls(Of(tagged, request, false)), credentials, users)
    ensures var history, others := HistoryOf(Calls(tagged), nows, route), Calls(Of(tagged, request, true));
      && (forall c :: |RateLimit.LogIn(history, SlotOf(c, route))|
            == Consumed(others, CredentialSlot(c)) + (if c in credentials then 1 else 0))
      && (forall user :: |RateLimit.LogIn(history, AccountSlotOf(user, route))|
            == Consumed(others, AccountSlot(user)) + (if user in users then 1 else 0))
  {
    hide HistoryOf, Bracketed, LogAfter;
    var calls := Calls(tagged);
    InterleavingBracketed(tagged);
    forall c
      ensures |RateLimit.LogIn(HistoryOf(calls, nows, route), SlotOf(c, route))|
           == Consumed(Calls(Of(tagged, request, true)), CredentialSlot(c)) + (if c in credentials then 1 else 0)
    {
      CredentialLogs(calls, nows, route, c);
      LogHoldsConsumed(calls, c);
      ConsumedSplits(tagged, request, CredentialSlot(c));
    }
    forall user
      ensures |RateLimit.LogIn(HistoryOf(calls, nows, route), AccountSlotOf(user, route))|
           == Consumed(Calls(Of(tagged, request, true)), AccountSlot(user)) + (if user in users then 1 else 0)
    {
      AccountLogs(calls, nows, route, user);
      ConsumedSplits(tagged, request, AccountSlot(user));
    }
  }
}
