/** How one request spends limiter slots: `authenticateWithLimits` in
    server/internal/server/app.go over the two gate functions of
    server/internal/auth/auth.go.

    The answers of the limiter and of the user lookup are inputs, so every interleaving with
    other requests is covered. The calls a request makes are kept as a ghost log, and what the
    request consumed is read off that log. */
module Authentication {
  import opened Basics
  import RateLimit

  datatype Credential = SessionToken(hash: string) | BearerToken(hash: string)

  datatype AuthError = Unauthorized | CredentialRejected | Infrastructure

  datatype Lookup = Found(user: string) | NotFound | Broken

  datatype ReserveAnswer = Reserved(at: RateLimit.Time) | Full | ReserveFailed
  datatype FinalizeAnswer = Accepted | Refused | FinalizeFailed

  /** What the rest of the system answers while one request runs. */
  datatype Answers = Answers(
    reserve: map<Credential, ReserveAnswer>,
    lookup: map<Credential, Lookup>,
    cancelFails: set<Credential>,
    settleFails: set<Credential>,
    finalize: FinalizeAnswer)

  datatype Request = Request(session: Option<Credential>, bearer: Option<Credential>, sessionOnly: bool)

  datatype Outcome =
    | Admitted(user: string)
    | AccountFull(user: string)
    | Denied(error: AuthError)
    | LimiterError

  /** A limiter call that was made and answered without an error. */
  datatype Call =
    | ReserveCall(credential: Credential, at: RateLimit.Time)
    | CancelCall(credential: Credential, at: RateLimit.Time)
    | FinalizeCall(credential: Credential, at: RateLimit.Time, account: Option<string>, accepted: bool)

  datatype Spent = CredentialSlot(credential: Credential) | AccountSlot(user: string)

  /** What one call changes for one slot, as `ReserveCredential`, `CancelCredential` and
      `FinalizeCredential` change the history. */
  function Effect(call: Call, slot: Spent): int {
    match call
    case ReserveCall(c, _) => if slot == CredentialSlot(c) then 1 else 0
    case CancelCall(c, _) => if slot == CredentialSlot(c) then -1 else 0
    case FinalizeCall(c, _, account, accepted) =>
      if account.None? then 0
      else if accepted then (if slot == AccountSlot(account.value) then 1 else 0)
      else (if slot == CredentialSlot(c) then -1 else 0)
  }

  function Consumed(calls: seq<Call>, slot: Spent): int {
    if calls == [] then 0
    else Consumed(calls[..|calls| - 1], slot) + Effect(calls[|calls| - 1], slot)
  }

  lemma ConsumedSnoc(calls: seq<Call>, call: Call, slot: Spent)
    ensures Consumed(calls + [call], slot) == Consumed(calls, slot) + Effect(call, slot)
  {
    assert (calls + [call])[..|calls|] == calls;
  }

  // ---------------------------------------------------------------- what the calls do to the limiter's log

  /** The call gives back the slot that was taken for `c` at `at`. */
  predicate GivesBack(call: Call, c: Credential, at: RateLimit.Time) {
    || call == CancelCall(c, at)
    || (call.FinalizeCall? && call.credential == c && call.at == at && call.account.Some? && !call.accepted)
  }

  /** What one call makes of a credential's log, as `ReserveCredential`, `CancelCredential` and
      `FinalizeCredential` of the limiter change it. */
  function NextLog(log: seq<RateLimit.Time>, call: Call, c: Credential): seq<RateLimit.Time> {
    if call.ReserveCall? && call.credential == c then log + [call.at]
    else if GivesBack(call, c, call.at) then RateLimit.DropLast(log, call.at)
    else log
  }

  function LogAfter(calls: seq<Call>, c: Credential): seq<RateLimit.Time> {
    if calls == [] then [] else NextLog(LogAfter(calls[..|calls| - 1], c), calls[|calls| - 1], c)
  }

  /** How one call changes the number of slots taken for `c` at `at` and not given back. */
  function Change(call: Call, c: Credential, at: RateLimit.Time): int {
    if call == ReserveCall(c, at) then 1 else if GivesBack(call, c, at) then -1 else 0
  }

  function Outstanding(calls: seq<Call>, c: Credential, at: RateLimit.Time): int {
    if calls == [] then 0 else Outstanding(calls[..|calls| - 1], c, at) + Change(calls[|calls| - 1], c, at)
  }

  /** Only slots that were taken are given back. */
  ghost predicate Bracketed(calls: seq<Call>) {
    calls == [] ||
    (var front, call := calls[..|calls| - 1], calls[|calls| - 1];
     Bracketed(front) && forall c, at :: GivesBack(call, c, at) ==> Outstanding(front, c, at) > 0)
  }

  lemma {:induction false} NextLogCounts(log: seq<RateLimit.Time>, call: Call, c: Credential, at: RateLimit.Time)
    requires GivesBack(call, c, call.at) ==> multiset(log)[call.at] > 0
    ensures multiset(NextLog(log, call, c))[at] == multiset(log)[at] + Change(call, c, at)
    ensures |NextLog(log, call, c)| == |log| + Effect(call, CredentialSlot(c))
  {
    hide RateLimit.DropLast;
    if GivesBack(call, c, call.at) {
      OneDropped(log, call.at);
      RateLimit.DropLastRemovesOne(log, call.at);
    }
  }

  /** A credential's log holds a time exactly as often as slots taken then are outstanding. */
  lemma {:induction false} LogHoldsOutstanding(calls: seq<Call>, c: Credential, at: RateLimit.Time)
    requires Bracketed(calls)
    ensures multiset(LogAfter(calls, c))[at] == Outstanding(calls, c, at)
  {
    hide NextLog, Change;
    if calls == [] {
    } else {
      var front, call := calls[..|calls| - 1], calls[|calls| - 1];
      LogHoldsOutstanding(front, c, at);
      LogHoldsOutstanding(front, c, call.at);
      NextLogCounts(LogAfter(front, c), call, c, at);
    }
  }

  /** Over any bracketed calls, of one request or of many, the length of a credential's log is what the
      calls consumed. */
  lemma {:induction false} LogHoldsConsumed(calls: seq<Call>, c: Credential)
    requires Bracketed(calls)
    ensures |LogAfter(calls, c)| == Consumed(calls, CredentialSlot(c))
  {
    hide NextLog, Change, Effect;
    if calls == [] {
    } else {
      var front, call := calls[..|calls| - 1], calls[|calls| - 1];
      LogHoldsConsumed(front, c);
      LogHoldsOutstanding(front, c, call.at);
      NextLogCounts(LogAfter(front, c), call, c, call.at);
    }
  }

  lemma {:induction false} OneDropped(log: seq<RateLimit.Time>, at: RateLimit.Time)
    requires multiset(log)[at] > 0
    ensures |RateLimit.DropLast(log, at)| == |log| - 1
  {
    RateLimit.DropLastRemovesOne(log, at);
    assert |multiset(RateLimit.DropLast(log, at))| == |multiset(log)| - 1;
  }

  lemma {:induction false} BracketedOutstanding(calls: seq<Call>, c: Credential, at: RateLimit.Time)
    requires Bracketed(calls)
    ensures Outstanding(calls, c, at) >= 0
  {
    if calls == [] {
    } else {
      BracketedOutstanding(calls[..|calls| - 1], c, at);
    }
  }

  /** The calls of many requests as they were committed, each with the request that made it. */
  type Tagged = seq<(nat, Call)>

  function Calls(tagged: Tagged): seq<Call> {
    if tagged == [] then [] else Calls(tagged[..|tagged| - 1]) + [tagged[|tagged| - 1].1]
  }

  /** The calls of one request, or those of all others. */
  function Of(tagged: Tagged, request: nat, others: bool): Tagged {
    if tagged == [] then []
    else
      var last := tagged[|tagged| - 1];
      Of(tagged[..|tagged| - 1], request, others) + (if (last.0 == request) != others then [last] else [])
  }

  ghost predicate EachBracketed(tagged: Tagged) {
    forall request :: Bracketed(Calls(Of(tagged, request, false)))
  }

  lemma {:induction false} CallsSnoc(tagged: Tagged, last: (nat, Call))
    ensures Calls(tagged + [last]) == Calls(tagged) + [last.1]
  {
    assert (tagged + [last])[..|tagged|] == tagged;
  }

  lemma {:induction false} BracketedFront(calls: seq<Call>, call: Call)
    requires Bracketed(calls + [call])
    ensures Bracketed(calls)
    ensures forall c, at :: GivesBack(call, c, at) ==> Outstanding(calls, c, at) > 0
  {
    assert (calls + [call])[..|calls|] == calls;
  }

  lemma {:induction false} FrontEachBracketed(tagged: Tagged)
    requires tagged != [] && EachBracketed(tagged)
    ensures EachBracketed(tagged[..|tagged| - 1])
  {
    var front, last := tagged[..|tagged| - 1], tagged[|tagged| - 1];
    forall request
      ensures Bracketed(Calls(Of(front, request, false)))
    {
      assert Bracketed(Calls(Of(tagged, request, false)));
      if last.0 == request {
        CallsSnoc(Of(front, request, false), last);
        BracketedFront(Calls(Of(front, request, false)), last.1);
      } else {
        assert Of(front, request, false) + [] == Of(front, request, false);
      }
    }
  }

  /** What is outstanding splits into one request's part and everybody else's. */
  lemma {:induction false} OutstandingSplits(tagged: Tagged, request: nat, c: Credential, at: RateLimit.Time)
    ensures Outstanding(Calls(tagged), c, at)
         == Outstanding(Calls(Of(tagged, request, false)), c, at) + Outstanding(Calls(Of(tagged, request, true)), c, at)
  {
    if tagged == [] {
    } else {
      var front, last := tagged[..|tagged| - 1], tagged[|tagged| - 1];
      OutstandingSplits(front, request, c, at);
      OutstandingSnoc(Calls(front), last.1, c, at);
      var mine := last.0 != request;
      CallsSnoc(Of(front, request, mine), last);
      OutstandingSnoc(Calls(Of(front, request, mine)), last.1, c, at);
      assert Of(front, request, !mine) + [] == Of(front, request, !mine);
    }
  }

  lemma {:induction false} OutstandingSnoc(calls: seq<Call>, call: Call, c: Credential, at: RateLimit.Time)
    ensures Outstanding(calls + [call], c, at)
         == Outstanding(calls, c, at) + Change(call, c, at)
  {
    assert (calls + [call])[..|calls|] == calls;
  }

  lemma {:induction false} OthersEachBracketed(tagged: Tagged, request: nat)
    requires EachBracketed(tagged)
    ensures EachBracketed(Of(tagged, request, true)) && |Of(tagged, request, true)| <= |tagged|
  {
    forall other
      ensures Bracketed(Calls(Of(Of(tagged, request, true), other, false)))
    {
      OfOthers(tagged, request, other);
      assert Bracketed(Calls(Of(tagged, other, false)));
    }
    OfOthers(tagged, request, request);
  }

  lemma {:induction false} OfOthers(tagged: Tagged, request: nat, other: nat)
    ensures Of(Of(tagged, request, true), other, false) == if other == request then [] else Of(tagged, other, false)
    ensures |Of(tagged, request, true)| <= |tagged|
  {
    if tagged == [] {
    } else {
      var front, last := tagged[..|tagged| - 1], tagged[|tagged| - 1];
      OfOthers(front, request, other);
      var rest := Of(front, request, true);
      if last.0 != request {
        assert (rest + [last])[..|rest|] == rest;
      } else {
        assert rest + [] == rest;
      }
    }
  }

  /** However the calls of many requests interleave, if each request only gives back what it took, then
      so do they all together. With `LogHoldsConsumed`, every log's length is the sum of what the
      requests consumed. */
  lemma {:induction false} InterleavingBracketed(tagged: Tagged)
    requires EachBracketed(tagged)
    ensures Bracketed(Calls(tagged))
    decreases |tagged|
  {
    if tagged == [] {
    } else {
      var front, last := tagged[..|tagged| - 1], tagged[|tagged| - 1];
      FrontEachBracketed(tagged);
      InterleavingBracketed(front);
      OthersEachBracketed(front, last.0);
      InterleavingBracketed(Of(front, last.0, true));
      assert (Calls(front) + [last.1])[..|Calls(front)|] == Calls(front);
      forall c, at | GivesBack(last.1, c, at)
        ensures Outstanding(Calls(front), c, at) > 0
      {
        OutstandingSplits(front, last.0, c, at);
        BracketedOutstanding(Calls(Of(front, last.0, true)), c, at);
        assert Bracketed(Calls(Of(tagged, last.0, false)));
        CallsSnoc(Of(front, last.0, false), last);
        BracketedFront(Calls(Of(front, last.0, false)), last.1);
      }
    }
  }

  /** The calls are bracketed so far, and every held slot is still outstanding. */
  ghost predicate Backed(calls: seq<Call>, held: map<Credential, RateLimit.Time>) {
    Bracketed(calls) && forall c :: c in held ==> Outstanding(calls, c, held[c]) >= 1
  }

  lemma {:induction false} ReserveBacked(calls: seq<Call>, held: map<Credential, RateLimit.Time>, c: Credential, at: RateLimit.Time)
    requires Backed(calls, held) && c !in held
    ensures Backed(calls + [ReserveCall(c, at)], held[c := at])
  {
    var more, held' := calls + [ReserveCall(c, at)], held[c := at];
    assert more[..|calls|] == calls;
    BracketedOutstanding(calls, c, at);
    forall d | d in held'
      ensures Outstanding(more, d, held'[d]) >= 1
    {
      OutstandingSnoc(calls, ReserveCall(c, at), d, held'[d]);
    }
  }

  lemma {:induction false} GiveBackBacked(calls: seq<Call>, held: map<Credential, RateLimit.Time>, c: Credential, call: Call)
    requires Backed(calls, held) && c in held && (call == CancelCall(c, held[c]) || (call.FinalizeCall? && call.credential == c && call.at == held[c]))
    ensures Backed(calls + [call], held - {c})
  {
    var more := calls + [call];
    assert more[..|calls|] == calls;
    forall d | d in held - {c}
      ensures Outstanding(more, d, held[d]) >= 1
    {
      OutstandingSnoc(calls, call, d, held[d]);
    }
  }

  // ---------------------------------------------------------------- what one request is charged

  /** Exactly these credentials and accounts hold one slot each on behalf of the request. */
  ghost predicate Charges(calls: seq<Call>, credentials: set<Credential>, users: set<string>) {
    && (forall c :: Consumed(calls, CredentialSlot(c)) == if c in credentials then 1 else 0)
    && (forall user :: Consumed(calls, AccountSlot(user)) == if user in users then 1 else 0)
  }

  lemma {:induction false} NothingCharged()
    ensures Charges([], {}, {}) && Backed([], map[]) && Taken([], map[])
  {
  }

  lemma {:induction false} ReserveCharges(calls: seq<Call>, credentials: set<Credential>, c: Credential, at: RateLimit.Time)
    requires Charges(calls, credentials, {}) && c !in credentials
    ensures Charges(calls + [ReserveCall(c, at)], credentials + {c}, {})
  {
    forall slot {
      ConsumedSnoc(calls, ReserveCall(c, at), slot);
    }
  }

  lemma {:induction false} CancelCharges(calls: seq<Call>, credentials: set<Credential>, c: Credential, at: RateLimit.Time)
    requires Charges(calls, credentials, {}) && c in credentials
    ensures Charges(calls + [CancelCall(c, at)], credentials - {c}, {})
  {
    forall slot {
      ConsumedSnoc(calls, CancelCall(c, at), slot);
    }
  }

  lemma {:induction false} FinalizeCharges(calls: seq<Call>, c: Credential, at: RateLimit.Time, user: string, accepted: bool)
    requires Charges(calls, {c}, {})
    ensures Charges(calls + [FinalizeCall(c, at, Some(user), accepted)], if accepted then {c} else {}, if accepted then {user} else {})
  {
    forall slot {
      ConsumedSnoc(calls, FinalizeCall(c, at, Some(user), accepted), slot);
    }
  }

  /** Finalizing a reservation without an account charges and gives back nothing. */
  lemma {:induction false} SettleCharges(calls: seq<Call>, held: map<Credential, RateLimit.Time>, c: Credential, at: RateLimit.Time)
    requires Charges(calls, held.Keys, {}) && Backed(calls, held)
    ensures var call := FinalizeCall(c, at, None, true); Charges(calls + [call], held.Keys, {}) && Backed(calls + [call], held)
  {
    var call := FinalizeCall(c, at, None, true);
    assert (calls + [call])[..|calls|] == calls;
    forall slot {
      ConsumedSnoc(calls, call, slot);
    }
    forall d | d in held
      ensures Outstanding(calls + [call], d, held[d]) >= 1
    {
      OutstandingSnoc(calls, call, d, held[d]);
    }
  }

  /** The slots reserved in the log are the ones the request took, and no others. */
  ghost predicate Taken(calls: seq<Call>, reservations: map<Credential, RateLimit.Time>) {
    forall c, at :: ReserveCall(c, at) in calls <==> c in reservations && reservations[c] == at
  }

  lemma {:induction false} TakenMore(calls: seq<Call>, reservations: map<Credential, RateLimit.Time>, c: Credential, at: RateLimit.Time)
    requires Taken(calls, reservations) && c !in reservations
    ensures Taken(calls + [ReserveCall(c, at)], reservations[c := at])
  {
  }

  lemma {:induction false} TakenStill(calls: seq<Call>, reservations: map<Credential, RateLimit.Time>, call: Call)
    requires Taken(calls, reservations) && !call.ReserveCall?
    ensures Taken(calls + [call], reservations)
  {
  }

  /** The presented credentials that the request may try, in order. */
  function Presented(request: Request): set<Credential> {
    (if request.session.Some? then {request.session.value} else {}) +
    (if request.bearer.Some? && !request.sessionOnly then {request.bearer.value} else {})
  }

  /** A request carries at most one token of each kind, and the environment has an answer for each. */
  predicate WellFormed(request: Request, answers: Answers) {
    && (request.session.Some? ==> request.session.value.SessionToken?)
    && (request.bearer.Some? ==> request.bearer.value.BearerToken?)
    && Presented(request) <= answers.reserve.Keys
    && Presented(request) <= answers.lookup.Keys
  }

  /** No limiter call of this request fails. */
  predicate LimiterSucceeds(answers: Answers) {
    && (forall c :: c in answers.reserve ==> !answers.reserve[c].ReserveFailed?)
    && answers.cancelFails == {} && answers.settleFails == {}
    && !answers.finalize.FinalizeFailed?
  }

  class Attempt {
    const answers: Answers
    var reservations: map<Credential, RateLimit.Time>
    var gateFailed: bool
    /** Some presented credential was over its own limit. */
    var rejected: bool
    ghost var calls: seq<Call>

    constructor (answers: Answers)
      ensures this.answers == answers && reservations == map[] && !gateFailed && !rejected && calls == []
    {
      this.answers := answers;
      reservations, gateFailed, rejected, calls := map[], false, false, [];
    }

    /** While the user is being resolved, exactly the reserved credentials have been charged. */
    ghost predicate ChargedReservations()
      reads this
    {
      && Charges(calls, reservations.Keys, {})
      && Backed(calls, reservations) && Taken(calls, reservations)
      && (forall c :: c in reservations ==> c in answers.reserve && answers.reserve[c] == Reserved(reservations[c]))
    }

    /** The closure handed to the resolver. */
    method Gate(credential: Credential) returns (pass: bool)
      requires credential in answers.reserve && credential !in reservations && ChargedReservations()
      modifies this
      ensures ChargedReservations()
      ensures pass <==> answers.reserve[credential].Reserved?
      ensures gateFailed == (old(gateFailed) || answers.reserve[credential].ReserveFailed?)
      ensures rejected == (old(rejected) || answers.reserve[credential].Full?)
      ensures reservations.Keys == old(reservations.Keys) + (if pass then {credential} else {})
    {
      match answers.reserve[credential]
      case ReserveFailed =>
        gateFailed := true;
        return false;
      case Full =>
        rejected := true;
        return false;
      case Reserved(at) =>
        ReserveCharges(calls, reservations.Keys, credential, at);
        ReserveBacked(calls, reservations, credential, at);
        TakenMore(calls, reservations, credential, at);
        calls := calls + [ReserveCall(credential, at)];
        reservations := reservations[credential := at];
        assert reservations.Keys == old(reservations.Keys) + {credential};
        return true;
    }

    method ResolveSession(request: Request) returns (r: Result<(string, Credential), AuthError>)
      requires WellFormed(request, answers) && reservations == map[] && ChargedReservations()
      modifies this
      ensures ChargedReservations() && reservations.Keys <= Presented(request)
      ensures request.sessionOnly ==> reservations.Keys == Passed(request, answers)
      ensures forall c :: c in reservations ==> Some(c) == request.session
      ensures r == SessionOutcome(request, answers)
      ensures request.session.Some? ==> (request.session.value in reservations <==> answers.reserve[request.session.value].Reserved?)
      ensures gateFailed == (old(gateFailed) || (request.session.Some? && answers.reserve[request.session.value].ReserveFailed?))
      ensures rejected == (old(rejected) || (request.session.Some? && answers.reserve[request.session.value].Full?))
      ensures r.Ok? ==> r.value.1 in reservations
    {
      if request.session.None? {
        return Err(Unauthorized);
      }
      var credential := request.session.value;
      var pass := Gate(credential);
      if !pass {
        return Err(CredentialRejected);
      }
      match answers.lookup[credential]
      case Found(user) => return Ok((user, credential));
      case NotFound => return Err(Unauthorized);
      case Broken => return Err(Infrastructure);
    }

    method ResolveUser(request: Request) returns (r: Result<(string, Credential), AuthError>)
      requires WellFormed(request, answers) && !request.sessionOnly && reservations == map[] && ChargedReservations()
      modifies this
      ensures ChargedReservations() && reservations.Keys <= Presented(request)
      ensures reservations.Keys == Passed(request, answers)
      ensures r == UserOutcome(request, answers)
      ensures r.Ok? ==> r.value.1 in reservations && answers.lookup[r.value.1] == Found(r.value.0)
      ensures rejected <==> old(rejected) || exists c :: c in Tried(request, answers) && answers.reserve[c].Full?
      ensures gateFailed ==> old(gateFailed) || exists c :: c in answers.reserve && answers.reserve[c].ReserveFailed?
      ensures r.Err? && r.error != Infrastructure ==>
        forall c :: c in Presented(request) && answers.reserve[c].Reserved? ==> c in reservations
    {
      var sessionRejected := false;
      if request.session.Some? {
        r := ResolveSession(request);
        if r.Ok? {
          return;
        }
        if r.error == CredentialRejected {
          sessionRejected := true;
        } else if r.error != Unauthorized {
          return;
        }
      }
      if request.bearer.None? {
        return Err(if sessionRejected then CredentialRejected else Unauthorized);
      }
      var credential := request.bearer.value;
      var pass := Gate(credential);
      if !pass {
        return Err(CredentialRejected);
      }
      match answers.lookup[credential]
      case Found(user) => return Ok((user, credential));
      case NotFound => return Err(Unauthorized);
      case Broken => return Err(Infrastructure);
    }

    /** Cancels every reservation but one, in whatever order the map yields them. */
    method CancelReservations(except: Option<Credential>) returns (ok: bool)
      requires ChargedReservations()
      modifies `calls
      ensures Bracketed(calls) && Taken(calls, reservations)
      ensures answers.cancelFails == {} ==> ok
      ensures ok && except.Some? && except.value in reservations ==> Backed(calls, map[except.value := reservations[except.value]])
      ensures ok ==> Charges(calls, set c | c in reservations && Some(c) == except, {})
    {
      hide Charges, Bracketed, Outstanding, Taken;
      var left := reservations.Keys;
      ghost var held := reservations;
      while left != {}
        invariant left <= reservations.Keys
        invariant held == map c | c in reservations && (c in left || Some(c) == except) :: reservations[c]
        invariant Charges(calls, held.Keys, {}) && Backed(calls, held) && Taken(calls, reservations)
        decreases left
      {
        var candidate :| candidate in left;
        left := left - {candidate};
        if Some(candidate) != except {
          if candidate in answers.cancelFails {
            return false;
          }
          CancelCharges(calls, held.Keys, candidate, reservations[candidate]);
          GiveBackBacked(calls, held, candidate, CancelCall(candidate, reservations[candidate]));
          TakenStill(calls, reservations, CancelCall(candidate, reservations[candidate]));
          assert (held - {candidate}).Keys == held.Keys - {candidate};
          calls := calls + [CancelCall(candidate, reservations[candidate])];
          held := held - {candidate};
        }
      }
      assert held.Keys == set c | c in reservations && Some(c) == except;
      if except.Some? && except.value in reservations {
        assert held == map[except.value := reservations[except.value]];
      }
      return true;
    }

    /** Leaves every reservation charged. */
    method SettleReservations() returns (ok: bool)
      requires ChargedReservations()
      modifies `calls
      ensures ChargedReservations()
      ensures answers.settleFails == {} ==> ok
    {
      hide Charges, Backed, Taken;
      var left := reservations.Keys;
      while left != {}
        invariant left <= reservations.Keys && ChargedReservations()
        decreases left
      {
        var candidate :| candidate in left;
        left := left - {candidate};
        if candidate in answers.settleFails {
          return false;
        }
        SettleCharges(calls, reservations, candidate, reservations[candidate]);
        TakenStill(calls, reservations, FinalizeCall(candidate, reservations[candidate], None, true));
        calls := calls + [FinalizeCall(candidate, reservations[candidate], None, true)];
      }
      return true;
    }

    /** The whole request. With every limiter call succeeding it consumes exactly:
        - one slot of the credential that identified the user and one of the account, when admitted;
        - nothing, when the account is full or the user could not be looked up;
        - one slot of each presented credential that passed its own limit, when nobody was identified. */
    method Authenticate(request: Request) returns (outcome: Outcome)
      requires WellFormed(request, answers) && reservations == map[] && calls == [] && !gateFailed && !rejected
      modifies this
      ensures Bracketed(calls) && Taken(calls, reservations) && reservations.Keys == Passed(request, answers)
      ensures LimiterSucceeds(answers) ==>
        match Resolved(request, answers)
        case Ok(identity) => outcome == (if answers.finalize.Accepted? then Admitted(identity.0) else AccountFull(identity.0))
        case Err(error) => outcome.Denied? && (outcome.error == Infrastructure <==> error == Infrastructure)
      ensures outcome.Denied? && outcome.error != Infrastructure ==>
        (outcome.error == CredentialRejected <==> exists c :: c in Tried(request, answers) && answers.reserve[c].Full?)
      ensures outcome.Admitted? ==>
        var resolved := Resolved(request, answers);
        resolved.Ok? && resolved.value.0 == outcome.user && resolved.value.1 in Presented(request)
        && Charges(calls, {resolved.value.1}, {outcome.user})
      ensures outcome.AccountFull? ==> Resolved(request, answers).Ok? && Resolved(request, answers).value.0 == outcome.user
      ensures outcome == Denied(Infrastructure) ==> Resolved(request, answers) == Err(Infrastructure)
      ensures outcome.AccountFull? || (outcome == Denied(Infrastructure) && answers.cancelFails == {}) ==>
        Charges(calls, {}, {})
      ensures outcome.Denied? && outcome.error != Infrastructure && LimiterSucceeds(answers) ==>
        Charges(calls, set c | c in Presented(request) && answers.reserve[c].Reserved?, {})
    {
      hide Charges, Bracketed, Outstanding, Taken;
      NothingCharged();
      var resolved: Result<(string, Credential), AuthError>;
      if request.sessionOnly {
        resolved := ResolveSession(request);
      } else {
        resolved := ResolveUser(request);
      }
      if gateFailed {
        var _ := CancelReservations(None);
        return LimiterError;
      }
      if resolved.Ok? {
        var (user, credential) := resolved.value;
        var ok := CancelReservations(Some(credential));
        if !ok {
          return LimiterError;
        }
        assert (set c | c in reservations && Some(c) == Some(credential)) == {credential};
        outcome := Finalize(user, credential);
        return;
      }
      if resolved.error == Infrastructure {
        var ok := CancelReservations(None);
        assert (set c | c in reservations && Some(c) == None) == {};
        return Denied(Infrastructure);
      }
      var settled := SettleReservations();
      if !settled {
        return LimiterError;
      }
      assert LimiterSucceeds(answers) ==>
        reservations.Keys == set c | c in Presented(request) && answers.reserve[c].Reserved?;
      return Denied(if rejected then CredentialRejected else Unauthorized);
    }

    method Finalize(user: string, credential: Credential) returns (outcome: Outcome)
      requires credential in reservations && Charges(calls, {credential}, {})
      requires Backed(calls, map[credential := reservations[credential]]) && Taken(calls, reservations)
      modifies `calls
      ensures Bracketed(calls) && Taken(calls, reservations)
      ensures !answers.finalize.FinalizeFailed? <==> outcome != LimiterError
      ensures outcome.Admitted? <==> answers.finalize.Accepted?
      ensures outcome != LimiterError ==> outcome == Admitted(user) || outcome == AccountFull(user)
      ensures outcome.Admitted? ==> Charges(calls, {credential}, {user})
      ensures outcome.AccountFull? ==> Charges(calls, {}, {})
    {
      if answers.finalize.FinalizeFailed? {
        return LimiterError;
      }
      var accepted := answers.finalize.Accepted?;
      FinalizeCharges(calls, credential, reservations[credential], user, accepted);
      GiveBackBacked(calls, map[credential := reservations[credential]], credential,
                     FinalizeCall(credential, reservations[credential], Some(user), accepted));
      TakenStill(calls, reservations, FinalizeCall(credential, reservations[credential], Some(user), accepted));
      calls := calls + [FinalizeCall(credential, reservations[credential], Some(user), accepted)];
      return if accepted then Admitted(user) else AccountFull(user);
    }
  }

  function Identified(credential: Credential, answers: Answers): Result<(string, Credential), AuthError>
    requires credential in answers.reserve && credential in answers.lookup
  {
    if !answers.reserve[credential].Reserved? then Err(CredentialRejected)
    else match answers.lookup[credential]
      case Found(user) => Ok((user, credential))
      case NotFound => Err(Unauthorized)
      case Broken => Err(Infrastructure)
  }

  /** The session decides if it identifies a user or could not be looked up; otherwise the bearer
      token does, if there is one. */
  function UserOutcome(request: Request, answers: Answers): Result<(string, Credential), AuthError>
    requires WellFormed(request, answers) && !request.sessionOnly
  {
    var session := SessionOutcome(request, answers);
    if session.Ok? || session.error == Infrastructure || request.bearer.None? then session
    else Identified(request.bearer.value, answers)
  }

  function Resolved(request: Request, answers: Answers): Result<(string, Credential), AuthError>
    requires WellFormed(request, answers)
  {
    if request.sessionOnly then SessionOutcome(request, answers) else UserOutcome(request, answers)
  }

  /** Who is identified: the user of the session cookie, and otherwise that of the bearer token where one is read,
      if the credential passed its own limit. A credential that could not be looked up ends it. */
  lemma {:induction false} ResolvedMeans(request: Request, answers: Answers)
    requires WellFormed(request, answers)
    ensures var r := Resolved(request, answers);
      var identifies := (c: Option<Credential>, user: string) =>
        c.Some? && c.value in answers.reserve && c.value in answers.lookup
        && answers.reserve[c.value].Reserved? && answers.lookup[c.value] == Found(user);
      var breaks := (c: Option<Credential>) =>
        c.Some? && c.value in answers.reserve && c.value in answers.lookup && answers.reserve[c.value].Reserved? && answers.lookup[c.value].Broken?;
      var bearer := if request.sessionOnly then None else request.bearer;
      && (forall user, c :: r == Ok((user, c)) <==>
            || (request.session == Some(c) && identifies(request.session, user))
            || (bearer == Some(c) && identifies(bearer, user) && !breaks(request.session)
                && forall other :: !identifies(request.session, other)))
      && (r == Err(Infrastructure) <==>
            breaks(request.session) || (breaks(bearer) && forall other :: !identifies(request.session, other)))
  {
  }

  /** The credentials that are tried: the session, and the bearer token unless the session identifies a user
      or could not be looked up. */
  function Tried(request: Request, answers: Answers): (tried: set<Credential>)
    requires WellFormed(request, answers)
    ensures tried <= Presented(request)
  {
    var session := SessionOutcome(request, answers);
    (if request.session.Some? then {request.session.value} else {}) +
    (if request.sessionOnly || request.bearer.None? || session.Ok? || session.error == Infrastructure then {} else {request.bearer.value})
  }

  /** Those of them that passed their own limit. */
  function Passed(request: Request, answers: Answers): set<Credential>
    requires WellFormed(request, answers)
  {
    set c | c in Tried(request, answers) && c in answers.reserve && answers.reserve[c].Reserved?
  }

  /** What the session cookie alone yields. */
  function SessionOutcome(request: Request, answers: Answers): Result<(string, Credential), AuthError>
    requires WellFormed(request, answers)
  {
    if request.session.None? then Err(Unauthorized) else Identified(request.session.value, answers)
  }
}
