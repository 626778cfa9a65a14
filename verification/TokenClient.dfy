/**
 * The browser's API client: what each stretch of code between two awaits does to the tokens, the shared refresh and the
 * requests, and what every interleaving of those stretches keeps.
 */
module TokenClient {
  import opened Common

  /** The `refreshPromise` of one refresh: its request is out, its answer is being read, or it has settled. */
  datatype FlightState = Sent | Reading | Settled(ok: bool)

  /** One refresh: the refresh token it presented and the request that started it. */
  datatype Flight = Flight(token: nat, starter: nat, state: FlightState)

  /** Where a logical request is suspended; `Waiting` is on the flight with that index. */
  datatype Phase = Fetching | Waiting(flight: nat) | ReadingBody | Done(ok: bool)

  datatype Request = Request(auth: bool, retried: bool, fetches: nat, phase: Phase)

  /** The module's variables, every refresh so far, every request so far, and the refresh tokens servers handed out. */
  datatype State = State(access: Option<nat>, refresh: Option<nat>, flight: Option<nat>,
                         flights: seq<Flight>, requests: seq<Request>, issued: set<nat>)

  const EMPTY := State(None, None, None, [], [], {})

  datatype Response = NetworkError | Unauthorized | Other(ok: bool)

  datatype Event =
    | Start(auth: bool)
    | Respond(r: nat, response: Response)
    | BodyRead(r: nat, ok: bool)
    | RefreshResponds(response: Response)
    | RefreshBody(tokens: Option<(Option<nat>, Option<nat>)>)
    | Resume(r: nat)
    | SetTokens(access: Option<nat>, refresh: Option<nat>)

  /** `request` up to its first await. */
  function StartRequest(s: State, auth: bool): State {
    s.(requests := s.requests + [Request(auth, false, 1, Fetching)])
  }

  function WithPhase(s: State, r: nat, phase: Phase): State
    requires r < |s.requests|
  {
    s.(requests := s.requests[r := s.requests[r].(phase := phase)])
  }

  /** `refreshSession`: join the refresh that is under way, or start one with the current refresh token. */
  function JoinRefresh(s: State, r: nat): State
    requires r < |s.requests| && s.refresh.Some?
  {
    if s.flight.Some? then WithPhase(s, r, Waiting(s.flight.value))
    else
      var f := |s.flights|;
      WithPhase(s.(flight := Some(f), flights := s.flights + [Flight(s.refresh.value, r, Sent)]), r, Waiting(f))
  }

  predicate ShouldRefresh(s: State, req: Request, response: Response) {
    response.Unauthorized? && !req.retried && s.refresh.Some? && !req.auth
  }

  /** The end of a refresh: the tokens it brought, or none, and no refresh under way any more. */
  function Settle(s: State, f: nat, ok: bool, access: Option<nat>, refresh: Option<nat>): State
    requires f < |s.flights|
  {
    s.(access := access, refresh := refresh, flight := None,
       flights := s.flights[f := s.flights[f].(state := Settled(ok))],
       issued := if refresh.Some? then s.issued + {refresh.value} else s.issued)
  }

  predicate Flying(s: State, state: FlightState) {
    s.flight.Some? && s.flight.value < |s.flights| && s.flights[s.flight.value].state == state
  }

  /** Which events can happen in a state; refresh tokens that servers hand out have not been handed out before. */
  predicate Enabled(s: State, e: Event) {
    match e
    case Start(_) => true
    case Respond(r, _) => r < |s.requests| && s.requests[r].phase.Fetching?
    case BodyRead(r, _) => r < |s.requests| && s.requests[r].phase.ReadingBody?
    case RefreshResponds(_) => Flying(s, Sent)
    case RefreshBody(tokens) =>
      Flying(s, Reading) && (tokens.Some? && tokens.value.1.Some? ==> tokens.value.1.value !in s.issued)
    case Resume(r) =>
      && r < |s.requests| && s.requests[r].phase.Waiting? && s.requests[r].phase.flight < |s.flights|
      && s.flights[s.requests[r].phase.flight].state.Settled?
    case SetTokens(_, refresh) => refresh.Some? ==> refresh.value !in s.issued
  }

  function Act(s: State, e: Event): State
    requires Enabled(s, e)
  {
    match e
    case Start(auth) => StartRequest(s, auth)
    case Respond(r, response) =>
      if response.NetworkError? then WithPhase(s, r, Done(false))
      else if ShouldRefresh(s, s.requests[r], response) then JoinRefresh(s, r)
      else WithPhase(s, r, ReadingBody)
    case BodyRead(r, ok) => WithPhase(s, r, Done(ok))
    case RefreshResponds(response) =>
      var f := s.flight.value;
      if response.Other? && response.ok then s.(flights := s.flights[f := s.flights[f].(state := Reading)])
      else Settle(s, f, false, None, None)
    case RefreshBody(tokens) =>
      if tokens.Some? then Settle(s, s.flight.value, true, tokens.value.0, tokens.value.1)
      else Settle(s, s.flight.value, false, None, None)
    case Resume(r) =>
      if s.flights[s.requests[r].phase.flight].state.ok then
        var request := s.requests[r];
        s.(requests := s.requests[r := request.(retried := true, fetches := request.fetches + 1, phase := Fetching)])
      else WithPhase(s, r, ReadingBody)
    case SetTokens(access, refresh) =>
      s.(access := access, refresh := refresh, issued := if refresh.Some? then s.issued + {refresh.value} else s.issued)
  }

  /** An event that cannot happen in a state changes nothing. */
  function Step(s: State, e: Event): State {
    if Enabled(s, e) then Act(s, e) else s
  }

  function Run(s: State, events: seq<Event>): State {
    if events == [] then s else Step(Run(s, events[..|events| - 1]), events[|events| - 1])
  }

  // ---- The invariant ---------------------------------------------------------------------------

  /** One refresh at most is under way, and `refreshPromise` is it. */
  ghost predicate SingleFlight(s: State) {
    && (s.flight.Some? ==> s.flight.value < |s.flights|)
    && forall f :: 0 <= f < |s.flights| ==> (!s.flights[f].state.Settled? <==> s.flight == Some(f))
  }

  /** No refresh token has been presented twice; the current one only by the refresh that is under way. */
  ghost predicate PresentedOnce(s: State) {
    && (forall f, g :: 0 <= f < g < |s.flights| ==> s.flights[f].token != s.flights[g].token)
    && (forall f :: 0 <= f < |s.flights| ==> s.flights[f].token in s.issued)
    && (s.refresh.Some? ==> s.refresh.value in s.issued)
    && forall f :: 0 <= f < |s.flights| && s.refresh == Some(s.flights[f].token) ==> s.flight == Some(f)
  }

  /** One fetch, and a second one after a refresh; a waiting request waits for a refresh there is. */
  ghost predicate RequestOk(s: State, req: Request) {
    && req.fetches == (if req.retried then 2 else 1)
    && (req.auth ==> !req.retried)
    && (req.phase.Waiting? ==> !req.retried && !req.auth && req.phase.flight < |s.flights|)
  }

  ghost predicate RequestsOk(s: State) {
    forall r :: 0 <= r < |s.requests| ==> RequestOk(s, s.requests[r])
  }

  /** A request that started a refresh waits for that very one, or has moved on for good. */
  ghost predicate StartersOk(s: State) {
    && (forall f :: 0 <= f < |s.flights| ==>
        s.flights[f].starter < |s.requests| && Moved(s.requests[s.flights[f].starter], f))
    && forall f, g :: 0 <= f < g < |s.flights| ==> s.flights[f].starter != s.flights[g].starter
  }

  predicate Moved(req: Request, f: nat) {
    req.phase == Waiting(f) || req.retried || req.phase.ReadingBody? || req.phase.Done?
  }

  ghost predicate Invariant(s: State) {
    SingleFlight(s) && PresentedOnce(s) && RequestsOk(s) && StartersOk(s)
  }

  lemma StepKeepsSingleFlight(s: State, e: Event)
    requires SingleFlight(s)
    ensures SingleFlight(Step(s, e))
  {
  }

  lemma JoiningPresentsOnce(s: State, r: nat)
    requires SingleFlight(s) && PresentedOnce(s) && r < |s.requests| && s.refresh.Some?
    ensures PresentedOnce(JoinRefresh(s, r))
  {
  }

  lemma SettlingPresentsOnce(s: State, f: nat, ok: bool, access: Option<nat>, refresh: Option<nat>)
    requires PresentedOnce(s) && f < |s.flights| && (refresh.Some? ==> refresh.value !in s.issued)
    ensures PresentedOnce(Settle(s, f, ok, access, refresh))
  {
  }

  lemma StepKeepsPresentedOnce(s: State, e: Event)
    requires SingleFlight(s) && PresentedOnce(s)
    ensures PresentedOnce(Step(s, e))
  {
    if Enabled(s, e) {
      match e
      case Respond(r, response) =>
        if ShouldRefresh(s, s.requests[r], response) {
          JoiningPresentsOnce(s, r);
        }
      case RefreshResponds(_) => SettlingPresentsOnce(s, s.flight.value, false, None, None);
      case RefreshBody(tokens) =>
        SettlingPresentsOnce(s, s.flight.value, false, None, None);
        if tokens.Some? {
          SettlingPresentsOnce(s, s.flight.value, true, tokens.value.0, tokens.value.1);
        }
      case _ =>
    }
    hide SingleFlight, JoinRefresh, Settle;
  }

  lemma StepKeepsRequestsOk(s: State, e: Event)
    requires SingleFlight(s) && RequestsOk(s)
    ensures RequestsOk(Step(s, e))
  {
  }

  /** A request that has moved on stays so; what a refresh did is kept, and the next one is started by a new request. */
  ghost predicate StartersKept(s: State, after: State) {
    && |s.requests| <= |after.requests|
    && (forall r, f :: 0 <= r < |s.requests| && 0 <= f < |s.flights| && Moved(s.requests[r], f) ==>
        Moved(after.requests[r], f))
    && |s.flights| <= |after.flights| <= |s.flights| + 1
    && (forall f :: 0 <= f < |s.flights| ==> after.flights[f].starter == s.flights[f].starter)
    && (|after.flights| > |s.flights| ==>
          var r := after.flights[|s.flights|].starter;
          r < |s.requests| && Moved(after.requests[r], |s.flights|)
          && forall f :: 0 <= f < |s.flights| ==> !Moved(s.requests[r], f))
  }

  lemma StepKeepsStarters(s: State, e: Event)
    requires RequestsOk(s) && SingleFlight(s)
    ensures StartersKept(s, Step(s, e))
  {
    hide SingleFlight;
  }

  lemma StepKeepsStartersOk(s: State, e: Event)
    requires SingleFlight(s) && RequestsOk(s) && StartersOk(s)
    ensures StartersOk(Step(s, e))
  {
    StepKeepsStarters(s, e);
    hide Step, SingleFlight, RequestsOk, Moved;
  }

  lemma {:induction false} RunsKeepInvariant(s: State, events: seq<Event>)
    requires Invariant(s)
    ensures Invariant(Run(s, events))
  {
    hide Step, Enabled, SingleFlight, PresentedOnce, RequestsOk, StartersOk;
    if events != [] {
      var n := |events| - 1;
      RunsKeepInvariant(s, events[..n]);
      var before := Run(s, events[..n]);
      StepKeepsSingleFlight(before, events[n]);
      StepKeepsPresentedOnce(before, events[n]);
      StepKeepsRequestsOk(before, events[n]);
      StepKeepsStartersOk(before, events[n]);
    }
  }

  // ---- Main results --------------------------------------------------------------------------------

  /**
   * Over every interleaving: at most one refresh is under way, no refresh token is presented twice, a logical request
   * sends at most two fetches, requests to the authentication routes never refresh, and a waiting request waits for
   * the refresh under way or for one that has settled, so it can always go on.
   */
  lemma RefreshIsSingleFlight(events: seq<Event>)
    ensures var s := Run(EMPTY, events);
            && (forall f, g :: 0 <= f < g < |s.flights| ==> s.flights[f].state.Settled? || s.flights[g].state.Settled?)
            && (forall f, g :: 0 <= f < g < |s.flights| ==> s.flights[f].token != s.flights[g].token)
            && (forall r :: 0 <= r < |s.requests| ==> s.requests[r].fetches <= 2)
            && (forall r :: 0 <= r < |s.requests| && s.requests[r].auth ==> s.requests[r].fetches == 1)
            && (forall r :: 0 <= r < |s.requests| && s.requests[r].phase.Waiting? ==>
                  s.flight == Some(s.requests[r].phase.flight) || Enabled(s, Resume(r)))
  {
    RunsKeepInvariant(EMPTY, events);
    hide Run, StartersOk;
  }

  /** There are never more refreshes than requests: each request starts at most one. */
  lemma RefreshesAreFewerThanRequests(events: seq<Event>)
    ensures var s := Run(EMPTY, events); |s.flights| <= |s.requests|
  {
    RunsKeepInvariant(EMPTY, events);
    var s := Run(EMPTY, events);
    hide Run;
    DistinctBelow(seq(|s.flights|, f requires 0 <= f < |s.flights| => s.flights[f].starter), |s.requests|);
  }

  /** A sequence of distinct numbers below `n` has at most `n` elements. */
  lemma {:induction false} DistinctBelow(s: seq<nat>, n: nat)
    requires Distinct(s) && forall i :: 0 <= i < |s| ==> s[i] < n
    ensures |s| <= n
  {
    if n == 0 {
      assert forall x :: x in s ==> x < n;
      EmptyIffNoMember(s);
    } else if i :| 0 <= i < |s| && s[i] == n - 1 {
      var rest := s[..i] + s[i + 1..];
      assert forall j :: 0 <= j < |rest| ==> rest[j] == s[if j < i then j else j + 1];
      DistinctBelow(rest, n - 1);
    } else {
      DistinctBelow(s, n - 1);
    }
  }

  // ---- Signing out -----------------------------------------------------------------------------------

  predicate SignedOut(s: State) {
    s.access.None? && s.refresh.None? && s.flight.None?
  }

  ghost predicate SignsIn(e: Event) {
    e.SetTokens? && (e.access.Some? || e.refresh.Some?)
  }

  ghost predicate NoSignIn(events: seq<Event>) {
    forall i :: 0 <= i < |events| ==> !SignsIn(events[i])
  }

  /** Signed out with no refresh under way, the client stays signed out until somebody signs in. */
  lemma {:induction false} SignedOutStays(s: State, events: seq<Event>)
    requires SignedOut(s) && NoSignIn(events)
    ensures SignedOut(Run(s, events))
  {
    if events != [] {
      SignedOutStays(s, events[..|events| - 1]);
    }
  }

  /**
   * Signing out sticks, whatever happens until the next sign-in, exactly when no refresh was under way: otherwise its
   * answer puts tokens back.
   */
  lemma SigningOutSticksIff(s: State, token: nat)
    requires Invariant(s) && token !in s.issued
    ensures (forall events :: NoSignIn(events) ==>
               Run(Step(s, SetTokens(None, None)), events).refresh.None?)
            <==> s.flight.None?
  {
    var out := Step(s, SetTokens(None, None));
    if s.flight.None? {
      forall events | NoSignIn(events)
        ensures Run(out, events).refresh.None?
      {
        SignedOutStays(out, events);
      }
    } else {
      var body := RefreshBody(Some((Some(token), Some(token))));
      var events := if Flying(s, Sent) then [RefreshResponds(Other(true)), body] else [body];
      AnswerSignsIn(s, token, events);
    }
  }

  lemma AnswerSignsIn(s: State, token: nat, events: seq<Event>)
    requires Invariant(s) && token !in s.issued && s.flight.Some?
    requires var body := RefreshBody(Some((Some(token), Some(token))));
             events == if Flying(s, Sent) then [RefreshResponds(Other(true)), body] else [body]
    ensures var out := Step(s, SetTokens(None, None));
            Run(out, events).refresh == Some(token) && NoSignIn(events)
  {
    var out := Step(s, SetTokens(None, None));
    if |events| == 2 {
      assert events[..1] == [RefreshResponds(Other(true))];
      RunOne(out, RefreshResponds(Other(true)));
    } else {
      RunOne(out, events[0]);
    }
  }

  lemma RunOne(s: State, e: Event)
    ensures Run(s, [e]) == Step(s, e)
  {
    assert [e][..0] == [];
  }

  // ---- The client as the browser runs it ---------------------------------------------------------------

  /** The module's variables; every method is the code from one await to the next. */
  class Client {
    var accessToken: Option<nat>
    var refreshToken: Option<nat>
    var refreshPromise: Option<nat>
    var flights: seq<Flight>
    var requests: seq<Request>
    ghost var issued: set<nat>

    ghost function View(): State
      reads this
    {
      State(accessToken, refreshToken, refreshPromise, flights, requests, issued)
    }

    constructor ()
      ensures View() == EMPTY
    {
      accessToken, refreshToken, refreshPromise, flights, requests, issued := None, None, None, [], [], {};
    }

    method SetTokens(access: Option<nat>, refresh: Option<nat>)
      requires refresh.Some? ==> refresh.value !in issued
      modifies this
      ensures View() == Step(old(View()), Event.SetTokens(access, refresh))
    {
      accessToken, refreshToken := access, refresh;
      if refresh.Some? {
        issued := issued + {refresh.value};
      }
    }

    method SendRequest(auth: bool) returns (r: nat)
      modifies this`requests
      ensures View() == Step(old(View()), Start(auth)) && r == |old(requests)|
    {
      r := |requests|;
      requests := requests + [Request(auth, false, 1, Fetching)];
    }

    /** The answer of a fetch: 401 on a first try with a refresh token leads into the shared refresh. */
    method OnResponse(r: nat, response: Response)
      requires Enabled(View(), Respond(r, response))
      modifies this
      ensures View() == Step(old(View()), Respond(r, response))
    {
      if response.NetworkError? {
        requests := requests[r := requests[r].(phase := Done(false))];
        return;
      }
      if response.Unauthorized? && !requests[r].retried && refreshToken.Some? && !requests[r].auth {
        RefreshSession(r);
        return;
      }
      requests := requests[r := requests[r].(phase := ReadingBody)];
    }

    method RefreshSession(r: nat)
      requires r < |requests| && refreshToken.Some?
      modifies this
      ensures View() == JoinRefresh(old(View()), r)
    {
      if refreshPromise.None? {
        refreshPromise := Some(|flights|);
        flights := flights + [Flight(refreshToken.value, r, Sent)];
      }
      requests := requests[r := requests[r].(phase := Waiting(refreshPromise.value))];
    }

    method OnRefreshResponse(response: Response)
      requires Enabled(View(), RefreshResponds(response))
      modifies this
      ensures View() == Step(old(View()), RefreshResponds(response))
    {
      var f := refreshPromise.value;
      if response.Other? && response.ok {
        flights := flights[f := flights[f].(state := Reading)];
      } else {
        SetTokens(None, None);
        refreshPromise, flights := None, flights[f := flights[f].(state := Settled(false))];
      }
    }

    method OnRefreshBody(tokens: Option<(Option<nat>, Option<nat>)>)
      requires Enabled(View(), RefreshBody(tokens))
      modifies this
      ensures View() == Step(old(View()), RefreshBody(tokens))
    {
      var f := refreshPromise.value;
      if tokens.Some? {
        SetTokens(tokens.value.0, tokens.value.1);
      } else {
        SetTokens(None, None);
      }
      refreshPromise, flights := None, flights[f := flights[f].(state := Settled(tokens.Some?))];
    }

    /** After the refresh a request waited for: once more with the new token, or on with the 401 it got. */
    method OnRefreshed(r: nat)
      requires Enabled(View(), Resume(r))
      modifies this`requests
      ensures View() == Step(old(View()), Resume(r))
    {
      if flights[requests[r].phase.flight].state.ok {
        requests := requests[r := requests[r].(retried := true, fetches := requests[r].fetches + 1, phase := Fetching)];
      } else {
        requests := requests[r := requests[r].(phase := ReadingBody)];
      }
    }

    method OnBody(r: nat, ok: bool)
      requires Enabled(View(), BodyRead(r, ok))
      modifies this`requests
      ensures View() == Step(old(View()), BodyRead(r, ok))
    {
      requests := requests[r := requests[r].(phase := Done(ok))];
    }
  }
}
