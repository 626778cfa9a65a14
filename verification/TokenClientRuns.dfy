/** The client's tokens, each refresh and each request after any interleaving, told from the events one by one. */
module TokenClientRuns {
  import opened Common
  import opened TokenClient

  // ---- Tokens ---------------------------------------------------------------------------------

  /** The refresh under way is in the given state. */
  predicate UnderWay(s: State, state: FlightState) {
    s.flight.Some? && s.flight.value < |s.flights| && s.flights[s.flight.value].state == state
  }

  predicate IsNew(s: State, refresh: Option<nat>) {
    refresh.Some? ==> refresh.value !in s.issued
  }

  /**
   * The access and refresh token after a run: those of the last sign-in or answered refresh; none after a refresh that
   * was refused, failed, or brought no tokens.
   */
  function TokensAfter(events: seq<Event>): (Option<nat>, Option<nat>) {
    if events == [] then (None, None)
    else
      var n := |events| - 1;
      var s, before := Run(EMPTY, events[..n]), TokensAfter(events[..n]);
      match events[n]
      case SetTokens(access, refresh) => if IsNew(s, refresh) then (access, refresh) else before
      case RefreshResponds(response) =>
        if UnderWay(s, Sent) && response != Other(true) then (None, None) else before
      case RefreshBody(None) => if UnderWay(s, Reading) then (None, None) else before
      case RefreshBody(Some(tokens)) => if UnderWay(s, Reading) && IsNew(s, tokens.1) then tokens else before
      case _ => before
  }

  lemma {:induction false} TokensAre(events: seq<Event>)
    ensures var s := Run(EMPTY, events); (s.access, s.refresh) == TokensAfter(events)
  {
    if events != [] {
      TokensAre(events[..|events| - 1]);
    }
  }

  // ---- Refreshes --------------------------------------------------------------------------------

  /** The answer makes the request join the shared refresh: a 401 on a first try, with a refresh token to present. */
  predicate Joins(s: State, r: nat, response: Response) {
    && r < |s.requests| && s.requests[r].phase.Fetching?
    && response.Unauthorized? && !s.requests[r].retried && !s.requests[r].auth && s.refresh.Some?
  }

  /**
   * A refresh after a run: it presents the refresh token there was when a request started it, reads the body of an
   * answer that is ok, and succeeds exactly when that brings tokens.
   */
  function FlightAfter(events: seq<Event>, f: nat): Option<Flight> {
    if events == [] then None
    else
      var n := |events| - 1;
      NextFlight(Run(EMPTY, events[..n]), events[n], f, FlightAfter(events[..n], f))
  }

  function NextFlight(s: State, e: Event, f: nat, before: Option<Flight>): Option<Flight> {
    match e
    case Respond(r, response) =>
      if Joins(s, r, response) && s.flight.None? && f == |s.flights| then Some(Flight(s.refresh.value, r, Sent))
      else before
    case RefreshResponds(response) =>
      if before.Some? && s.flight == Some(f) && before.value.state.Sent? then
        Some(before.value.(state := if response == Other(true) then Reading else Settled(false)))
      else before
    case RefreshBody(tokens) =>
      if before.Some? && s.flight == Some(f) && before.value.state.Reading?
         && (tokens.Some? ==> IsNew(s, tokens.value.1)) then
        Some(before.value.(state := Settled(tokens.Some?)))
      else before
    case _ => before
  }

  ghost predicate FlightIs(s: State, f: nat, flight: Option<Flight>) {
    (f < |s.flights| <==> flight.Some?) && (f < |s.flights| ==> flight == Some(s.flights[f]))
  }

  lemma StepFlight(s: State, e: Event, f: nat, before: Option<Flight>)
    requires FlightIs(s, f, before) && (s.flight.Some? ==> s.flight.value < |s.flights|)
    ensures FlightIs(Step(s, e), f, NextFlight(s, e, f, before))
  {
  }

  lemma {:induction false} FlightsAre(events: seq<Event>, f: nat)
    ensures var s := Run(EMPTY, events);
            && (f < |s.flights| <==> FlightAfter(events, f).Some?)
            && (f < |s.flights| ==> FlightAfter(events, f) == Some(s.flights[f]))
  {
    if events != [] {
      var n := |events| - 1;
      FlightsAre(events[..n], f);
      RunsKeepInvariant(EMPTY, events[..n]);
      hide PresentedOnce, RequestsOk, StartersOk, Step, NextFlight;
      StepFlight(Run(EMPTY, events[..n]), events[n], f, FlightAfter(events[..n], f));
    }
  }

  // ---- Requests -----------------------------------------------------------------------------------

  /**
   * A request after a run: failed by a network error, waiting for the shared refresh, sent once more after one that
   * succeeded, or on to reading a body, which says how it ends.
   */
  function RequestAfter(events: seq<Event>, r: nat): Option<Request> {
    if events == [] then None
    else
      var n := |events| - 1;
      var s, before := Run(EMPTY, events[..n]), RequestAfter(events[..n], r);
      match events[n]
      case Start(auth) => if r == |s.requests| then Some(Request(auth, false, 1, Fetching)) else before
      case Respond(q, response) =>
        if q != r || before.None? || !before.value.phase.Fetching? then before
        else if response.NetworkError? then Some(before.value.(phase := Done(false)))
        else if Joins(s, r, response) then
          Some(before.value.(phase := Waiting(if s.flight.Some? then s.flight.value else |s.flights|)))
        else Some(before.value.(phase := ReadingBody))
      case BodyRead(q, ok) =>
        if q == r && before.Some? && before.value.phase.ReadingBody? then Some(before.value.(phase := Done(ok)))
        else before
      case Resume(q) =>
        if q != r || before.None? || !before.value.phase.Waiting? then before
        else
          var flight := before.value.phase.flight;
          if flight >= |s.flights| || !s.flights[flight].state.Settled? then before
          else if s.flights[flight].state == Settled(true) then
            Some(before.value.(retried := true, fetches := before.value.fetches + 1, phase := Fetching))
          else Some(before.value.(phase := ReadingBody))
      case _ => before
  }

  lemma {:induction false} RequestsAre(events: seq<Event>, r: nat)
    ensures var s := Run(EMPTY, events);
            && (r < |s.requests| <==> RequestAfter(events, r).Some?)
            && (r < |s.requests| ==> RequestAfter(events, r) == Some(s.requests[r]))
  {
    if events != [] {
      RequestsAre(events[..|events| - 1], r);
    }
  }
}
