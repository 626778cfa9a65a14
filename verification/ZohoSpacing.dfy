/** Exactly which configurations and Retry-After values keep the calls of a limiter apart, whatever the timers do. */
module ZohoSpacing {
  import opened Arithmetic
  import opened Common
  import opened ZohoLimiter

  // ---- What a retry may ask for ---------------------------------------------------------------

  /** Every Retry-After that the replies carry is an allowed one. */
  ghost predicate Obeys(w: World, allowed: nat -> bool) {
    forall t :: w.reply(t).Reply? && w.reply(t).retryAfter.Some? ==> allowed(w.reply(t).retryAfter.value)
  }

  /** The backoffs a call may note. */
  ghost predicate Asks(cfg: Config, allowed: nat -> bool, wait: nat) {
    cfg.maxRetries > 0 && (allowed(wait) || exists i :: 0 <= i < cfg.maxRetries && wait == cfg.backoffBase * Pow2(i))
  }

  lemma BackoffIsAsked(cfg: Config, w: World, allowed: nat -> bool, t: nat, attempt: nat)
    requires Obeys(w, allowed) && 1 <= attempt <= cfg.maxRetries
    ensures Asks(cfg, allowed, Backoff(cfg, w.reply(t), attempt))
  {
    var i := attempt - 1;
    assert 0 <= i < cfg.maxRetries && cfg.backoffBase * Pow2(attempt - 1) == cfg.backoffBase * Pow2(i);
  }

  // ---- The retries of one call ------------------------------------------------------------------

  /** What a retry has to keep: the interval, and with `full` the backoff too. */
  function Goal(cfg: Config, full: bool, wait: nat): nat {
    if full then Max(wait, cfg.minInterval) else cfg.minInterval
  }

  ghost predicate Achieves(cfg: Config, full: bool, starts: seq<nat>, waits: seq<nat>)
    requires |waits| == |starts| - 1
  {
    forall i :: 0 <= i < |waits| ==> starts[i + 1] >= starts[i] + Goal(cfg, full, waits[i])
  }

  /** After the timer of the backoff, what remains fits a timer again, or is over. */
  predicate Holds(cfg: Config, full: bool, wait: nat) {
    || Max(wait, cfg.minInterval) - TimerDelay(wait) <= MAX_TIMER
    || TimerDelay(wait) + 1 >= Goal(cfg, full, wait)
  }

  lemma AchievesBefore(cfg: Config, full: bool, before: nat, starts: seq<nat>, wait: nat, waits: seq<nat>)
    requires starts != [] && |waits| == |starts| - 1
    ensures Achieves(cfg, full, [before] + starts, [wait] + waits) <==>
        starts[0] >= before + Goal(cfg, full, wait) && Achieves(cfg, full, starts, waits)
  {
    var all, both := [before] + starts, [wait] + waits;
    if starts[0] >= before + Goal(cfg, full, wait) && Achieves(cfg, full, starts, waits) {
      forall i | 0 <= i < |both|
        ensures all[i + 1] >= all[i] + Goal(cfg, full, both[i])
      {
        if i > 0 {
          assert starts[(i - 1) + 1] >= starts[i - 1] + Goal(cfg, full, waits[i - 1]);
        }
      }
    }
    if Achieves(cfg, full, all, both) {
      assert all[0 + 1] >= all[0] + Goal(cfg, full, both[0]);
      forall i | 0 <= i < |waits|
        ensures starts[i + 1] >= starts[i] + Goal(cfg, full, waits[i])
      {
        assert all[(i + 1) + 1] >= all[i + 1] + Goal(cfg, full, both[i + 1]);
      }
    }
  }

  /** The throttle of a retry keeps the goal when the backoff holds, and fails it on time when it does not. */
  lemma RetryGap(cfg: Config, full: bool, w: World, again: Limiter)
    requires again.Valid() && again.now - again.lastCallAt >= TimerDelay(again.backoff)
    ensures Holds(cfg, full, again.backoff) ==>
              Throttled(cfg, w, again).now >= again.lastCallAt + Goal(cfg, full, again.backoff)
    ensures !Holds(cfg, full, again.backoff) && again.now - again.lastCallAt == TimerDelay(again.backoff)
            && w.late(again.now) == 0 ==>
              Throttled(cfg, w, again).now < again.lastCallAt + Goal(cfg, full, again.backoff)
  {
  }

  lemma {:induction false} CallAchieves(cfg: Config, full: bool, w: World, allowed: nat -> bool, l: Limiter,
                                        attempt: nat)
    requires l.Valid() && attempt >= 1 && Obeys(w, allowed)
    requires forall wait: nat :: Asks(cfg, allowed, wait) ==> Holds(cfg, full, wait)
    ensures var r := Call(cfg, w, l, attempt); Achieves(cfg, full, r.starts, r.waits)
    decreases cfg.maxRetries + 1 - attempt
  {
    hide Backoff, Retryable, Succeeds, Achieves, Pow2, Throttled, Goal, Holds, Asks, Obeys;
    var t := Throttled(cfg, w, l);
    var reply := w.reply(t.now);
    if Retryable(reply) && attempt <= cfg.maxRetries {
      var backoff := Backoff(cfg, reply, attempt);
      BackoffIsAsked(cfg, w, allowed, t.now, attempt);
      var again := Limiter(t.now, backoff, Slept(w, t.now + w.took(t.now), backoff));
      CallAchieves(cfg, full, w, allowed, again, attempt + 1);
      RetryGap(cfg, full, w, again);
      FirstStart(cfg, w, again, attempt + 1);
      var rest := Call(cfg, w, again, attempt + 1);
      AchievesBefore(cfg, full, t.now, rest.starts, backoff, rest.waits);
    } else {
      assert Achieves(cfg, full, [t.now], []) by { OneAchieves(cfg, full, t.now); }
    }
  }

  lemma OneAchieves(cfg: Config, full: bool, t: nat)
    ensures Achieves(cfg, full, [t], [])
  {
  }

  lemma FirstStart(cfg: Config, w: World, l: Limiter, attempt: nat)
    requires l.Valid() && attempt >= 1
    ensures Call(cfg, w, l, attempt).starts[0] == Throttled(cfg, w, l).now
  {
    hide Throttled, Backoff, Retryable, Succeeds;
  }

  /** Timers on time, fetches that take no time, and always the same reply. */
  function Still(reply: Reply): World {
    World(_ => 0, _ => 0, _ => reply)
  }

  lemma {:induction false} BadRetryShows(cfg: Config, full: bool, reply: Reply, l: Limiter, attempt: nat, bad: nat)
    requires l.Valid() && Retryable(reply) && 1 <= attempt <= bad <= cfg.maxRetries
    requires !Holds(cfg, full, Backoff(cfg, reply, bad))
    ensures var r := Call(cfg, Still(reply), l, attempt); !Achieves(cfg, full, r.starts, r.waits)
    decreases bad - attempt
  {
    hide Backoff, Retryable, Succeeds, Achieves, Pow2, Throttled, Goal, Holds;
    var w := Still(reply);
    var t := Throttled(cfg, w, l);
    var backoff := Backoff(cfg, reply, attempt);
    assert w.reply(t.now) == reply && w.took(t.now) == 0;
    var again := Limiter(t.now, backoff, Slept(w, t.now + w.took(t.now), backoff));
    assert again.now == t.now + TimerDelay(backoff) && w.late(again.now) == 0;
    RetryGap(cfg, full, w, again);
    FirstStart(cfg, w, again, attempt + 1);
    if attempt < bad {
      BadRetryShows(cfg, full, reply, again, attempt + 1, bad);
    }
    var rest := Call(cfg, w, again, attempt + 1);
    AchievesBefore(cfg, full, t.now, rest.starts, backoff, rest.waits);
  }

  /**
   * For every configuration and set of Retry-After values: all retries keep the interval (with `full`, their backoff
   * too), whatever the timers and fetches do, if and only if each backoff that may be asked for holds.
   */
  lemma RetriesKeepIff(cfg: Config, full: bool, allowed: nat -> bool)
    ensures (forall w, l: Limiter :: Obeys(w, allowed) && l.Valid() ==>
               Achieves(cfg, full, Call(cfg, w, l, 1).starts, Call(cfg, w, l, 1).waits))
            <==> forall wait: nat :: Asks(cfg, allowed, wait) ==> Holds(cfg, full, wait)
  {
    if forall wait: nat :: Asks(cfg, allowed, wait) ==> Holds(cfg, full, wait) {
      forall w, l: Limiter | Obeys(w, allowed) && l.Valid()
        ensures Achieves(cfg, full, Call(cfg, w, l, 1).starts, Call(cfg, w, l, 1).waits)
      {
        CallAchieves(cfg, full, w, allowed, l, 1);
      }
    } else {
      var wait: nat :| Asks(cfg, allowed, wait) && !Holds(cfg, full, wait);
      var reply, bad := AskingReply(cfg, allowed, wait);
      BadRetryShows(cfg, full, reply, Limiter(0, 0, 0), 1, bad);
      assert Obeys(Still(reply), allowed);
    }
  }

  /** A reply, and the attempt at which it asks for the wait. */
  lemma AskingReply(cfg: Config, allowed: nat -> bool, wait: nat) returns (reply: Reply, bad: nat)
    requires Asks(cfg, allowed, wait)
    ensures Retryable(reply) && 1 <= bad <= cfg.maxRetries && Backoff(cfg, reply, bad) == wait
    ensures reply.Reply? && reply.retryAfter.Some? ==> allowed(reply.retryAfter.value)
  {
    if allowed(wait) {
      reply, bad := Reply(429, Some(wait), false), 1;
    } else {
      var i :| 0 <= i < cfg.maxRetries && wait == cfg.backoffBase * Pow2(i);
      reply, bad := Reply(429, None, false), i + 1;
    }
  }

  /** When all waits fit, every retry keeps its backoff, and the first fetch keeps what the limiter noted before. */
  lemma CallKeepsWaits(cfg: Config, w: World, l: Limiter)
    requires l.Valid() && l.backoff <= MAX_TIMER && WaitsFit(cfg, w)
    ensures var r := Call(cfg, w, l, 1);
            Achieves(cfg, true, [l.lastCallAt] + r.starts, [l.backoff] + r.waits)
  {
    var allowed := (wait: nat) => cfg.maxRetries > 0 ==> wait <= MAX_TIMER;
    forall wait: nat | Asks(cfg, allowed, wait)
      ensures Holds(cfg, true, wait)
    {
      if i :| 0 <= i < cfg.maxRetries && wait == cfg.backoffBase * Pow2(i) {
        Pow2Grows(i, cfg.maxRetries - 1, cfg.backoffBase);
      }
    }
    FirstStart(cfg, w, l, 1);
    assert Throttled(cfg, w, l).now >= l.lastCallAt + Max(l.backoff, cfg.minInterval);
    hide Call, Throttled, Holds, Asks;
    CallAchieves(cfg, true, w, allowed, l, 1);
    AchievesBefore(cfg, true, l.lastCallAt, Call(cfg, w, l, 1).starts, l.backoff, Call(cfg, w, l, 1).waits);
  }

  // ---- All calls of a limiter ---------------------------------------------------------------------

  /** Enough for the spacing of a run: an interval of at most one millisecond, or waits that all fit a timer. */
  ghost predicate Spaces(cfg: Config, w: World, backoff: nat) {
    cfg.minInterval <= 1 || (WaitsFit(cfg, w) && backoff <= MAX_TIMER)
  }

  lemma ThrottleSpaces(cfg: Config, w: World, l: Limiter)
    requires l.Valid() && Spaces(cfg, w, l.backoff)
    ensures Throttled(cfg, w, l).now >= l.lastCallAt + cfg.minInterval
  {
  }

  lemma SpacedBefore(cfg: Config, before: nat, starts: seq<nat>)
    requires starts != [] && Spaced(cfg, starts) && starts[0] >= before + cfg.minInterval
    ensures Spaced(cfg, [before] + starts)
  {
    var all := [before] + starts;
    assert forall i :: 0 < i < |all| ==> all[i] == starts[i - 1];
  }

  lemma {:induction false} CallIsSpaced(cfg: Config, w: World, l: Limiter, attempt: nat)
    requires l.Valid() && attempt >= 1 && Spaces(cfg, w, l.backoff)
    ensures var r := Call(cfg, w, l, attempt);
            && Spaced(cfg, [l.lastCallAt] + r.starts) && Spaced(cfg, r.starts)
            && r.state.lastCallAt == r.starts[|r.starts| - 1] && Spaces(cfg, w, r.state.backoff)
    decreases cfg.maxRetries + 1 - attempt
  {
    hide Backoff, Retryable, Succeeds, Spaced, Pow2, Throttled, WaitsFit;
    ThrottleSpaces(cfg, w, l);
    var t := Throttled(cfg, w, l);
    var reply := w.reply(t.now);
    if Retryable(reply) && attempt <= cfg.maxRetries {
      var backoff := Backoff(cfg, reply, attempt);
      if cfg.minInterval > 1 {
        BackoffFits(cfg, w, t.now, attempt);
      }
      var again := Limiter(t.now, backoff, Slept(w, t.now + w.took(t.now), backoff));
      CallIsSpaced(cfg, w, again, attempt + 1);
      SpacedBefore(cfg, l.lastCallAt, [t.now] + Call(cfg, w, again, attempt + 1).starts);
    } else {
      OneIsSpaced(cfg, t.now);
      SpacedBefore(cfg, l.lastCallAt, [t.now]);
    }
  }

  lemma OneIsSpaced(cfg: Config, t: nat)
    ensures Spaced(cfg, [t])
  {
  }

  /** Over any number of calls, all fetches of a limiter start at least the configured interval apart. */
  lemma {:induction false} FetchesAreSpaced(cfg: Config, w: World, l: Limiter, idle: seq<nat>)
    requires l.Valid() && Spaces(cfg, w, l.backoff)
    ensures var r := Calls(cfg, w, l, idle);
            && Spaced(cfg, [l.lastCallAt] + r.1) && Spaces(cfg, w, r.0.backoff)
            && r.0.lastCallAt == ([l.lastCallAt] + r.1)[|r.1|]
  {
    hide Call, WaitsFit, Spaced;
    if idle == [] {
      assert [l.lastCallAt] + [] == [l.lastCallAt];
      OneIsSpaced(cfg, l.lastCallAt);
    } else {
      FetchesAreSpaced(cfg, w, l, idle[..|idle| - 1]);
      var before := Calls(cfg, w, l, idle[..|idle| - 1]);
      var l' := before.0.(now := before.0.now + idle[|idle| - 1]);
      CallIsSpaced(cfg, w, l', 1);
      var starts := Call(cfg, w, l', 1).starts;
      SpacedJoin(cfg, [l.lastCallAt] + before.1, starts);
      assert ([l.lastCallAt] + before.1) + starts == [l.lastCallAt] + (before.1 + starts);
    }
  }

  lemma SpacedJoin(cfg: Config, a: seq<nat>, b: seq<nat>)
    requires a != [] && Spaced(cfg, a) && Spaced(cfg, [a[|a| - 1]] + b)
    ensures Spaced(cfg, a + b)
  {
    forall i | 0 < i < |a + b|
      ensures (a + b)[i] >= (a + b)[i - 1] + cfg.minInterval
    {
      if i >= |a| {
        var tail := [a[|a| - 1]] + b;
        assert tail[i - |a| + 1] >= tail[i - |a|] + cfg.minInterval;
      }
    }
  }

  lemma SpacedAfter(cfg: Config, before: nat, starts: seq<nat>)
    requires Spaced(cfg, [before] + starts)
    ensures Spaced(cfg, starts)
  {
    var all := [before] + starts;
    forall i | 0 < i < |starts|
      ensures starts[i] >= starts[i - 1] + cfg.minInterval
    {
      assert all[i + 1] >= all[(i + 1) - 1] + cfg.minInterval;
    }
  }

  /** With a still world a call ends at its last fetch. */
  lemma {:induction false} StillCallEnds(cfg: Config, reply: Reply, l: Limiter, attempt: nat)
    requires l.Valid() && attempt >= 1
    ensures var r := Call(cfg, Still(reply), l, attempt);
            r.state.now == r.state.lastCallAt == r.starts[|r.starts| - 1] && r.last == reply
    decreases cfg.maxRetries + 1 - attempt
  {
    hide Backoff, Retryable, Succeeds, Pow2, Throttled;
    var w := Still(reply);
    var t := Throttled(cfg, w, l);
    assert w.reply(t.now) == reply && w.took(t.now) == 0;
    if Retryable(reply) && attempt <= cfg.maxRetries {
      var backoff := Backoff(cfg, reply, attempt);
      StillCallEnds(cfg, reply, Limiter(t.now, backoff, Slept(w, t.now + w.took(t.now), backoff)), attempt + 1);
    }
  }

  /** A second call right after one that left a wait beyond any timer starts one millisecond after it. */
  lemma SecondCallRushes(cfg: Config, reply: Reply)
    requires cfg.minInterval > 1 && Wait(cfg, Call(cfg, Still(reply), Limiter(0, 0, 0), 1).state) > MAX_TIMER
    ensures !Spaced(cfg, Calls(cfg, Still(reply), Limiter(0, 0, 0), [0, 0]).1)
  {
    var w, l := Still(reply), Limiter(0, 0, 0);
    var first := Call(cfg, w, l, 1);
    StillCallEnds(cfg, reply, l, 1);
    assert [0, 0][..1] == [0] && [0][..0] == [];
    assert l.(now := l.now + 0) == l && first.state.(now := first.state.now + 0) == first.state;
    var second := Call(cfg, w, first.state, 1);
    assert Calls(cfg, w, l, [0]) == (first.state, [] + first.starts);
    assert Calls(cfg, w, l, [0, 0]).1 == ([] + first.starts) + second.starts;
    FirstStart(cfg, w, first.state, 1);
    assert w.late(first.state.now) == 0;
    assert second.starts[0] == first.state.now + 1;
    hide Call, Throttled, Calls;
    var all, n := ([] + first.starts) + second.starts, |first.starts|;
    assert all[n] == second.starts[0] && all[n - 1] == first.starts[n - 1];
  }

  /** The interval and every backoff that may be asked for fit a timer. */
  ghost predicate AllFit(cfg: Config, allowed: nat -> bool) {
    cfg.minInterval <= MAX_TIMER && forall wait: nat :: Asks(cfg, allowed, wait) ==> wait <= MAX_TIMER
  }

  lemma AllFitFits(cfg: Config, allowed: nat -> bool, w: World)
    requires AllFit(cfg, allowed) && Obeys(w, allowed)
    ensures WaitsFit(cfg, w)
  {
    if cfg.maxRetries > 0 {
      var i := cfg.maxRetries - 1;
      assert 0 <= i < cfg.maxRetries && cfg.backoffBase * Pow2(cfg.maxRetries - 1) == cfg.backoffBase * Pow2(i);
      assert Asks(cfg, allowed, cfg.backoffBase * Pow2(cfg.maxRetries - 1));
      forall t | w.reply(t).Reply? && w.reply(t).retryAfter.Some?
        ensures w.reply(t).retryAfter.value <= MAX_TIMER
      {
        assert Asks(cfg, allowed, w.reply(t).retryAfter.value);
      }
    }
  }

  /** When retries run out, the last backoff is left behind. */
  lemma {:induction false} StillBackoff(cfg: Config, reply: Reply, l: Limiter, attempt: nat)
    requires l.Valid() && attempt >= 1 && Retryable(reply)
    ensures Call(cfg, Still(reply), l, attempt).state.backoff
            == if attempt <= cfg.maxRetries then Backoff(cfg, reply, cfg.maxRetries) else l.backoff
    decreases cfg.maxRetries + 1 - attempt
  {
    hide Backoff, Pow2, Throttled;
    var w := Still(reply);
    var t := Throttled(cfg, w, l);
    assert w.reply(t.now) == reply;
    if attempt <= cfg.maxRetries {
      var backoff := Backoff(cfg, reply, attempt);
      StillBackoff(cfg, reply, Limiter(t.now, backoff, Slept(w, t.now + w.took(t.now), backoff)), attempt + 1);
    }
  }

  lemma BackoffGrows(cfg: Config, reply: Reply, attempt: nat)
    requires 1 <= attempt <= cfg.maxRetries
    ensures Backoff(cfg, reply, attempt) <= Backoff(cfg, reply, cfg.maxRetries)
  {
    Pow2Grows(attempt - 1, cfg.maxRetries - 1, cfg.backoffBase);
  }

  /** A reply under which the first call leaves a wait beyond any timer. */
  lemma MisfitReply(cfg: Config, allowed: nat -> bool) returns (reply: Reply)
    requires !AllFit(cfg, allowed)
    ensures reply.Reply? && reply.retryAfter.Some? ==> allowed(reply.retryAfter.value)
    ensures Wait(cfg, Call(cfg, Still(reply), Limiter(0, 0, 0), 1).state) > MAX_TIMER
  {
    hide Call, Backoff, Pow2;
    reply := Reply(200, None, false);
    if cfg.minInterval <= MAX_TIMER {
      var wait: nat :| Asks(cfg, allowed, wait) && wait > MAX_TIMER;
      var bad;
      reply, bad := AskingReply(cfg, allowed, wait);
      StillBackoff(cfg, reply, Limiter(0, 0, 0), 1);
      BackoffGrows(cfg, reply, bad);
    }
  }

  /**
   * For every configuration and set of Retry-After values: over all runs of a limiter all fetches start at least the
   * interval apart, if and only if the interval is at most a millisecond or it and all possible backoffs fit a timer.
   */
  lemma FetchesAreSpacedIff(cfg: Config, allowed: nat -> bool)
    ensures (forall w, now, idle :: Obeys(w, allowed) ==> Spaced(cfg, Calls(cfg, w, Limiter(0, 0, now), idle).1))
            <==> cfg.minInterval <= 1 || AllFit(cfg, allowed)
  {
    hide Spaced, Calls, Call, Pow2;
    if cfg.minInterval <= 1 || AllFit(cfg, allowed) {
      forall w, now, idle | Obeys(w, allowed)
        ensures Spaced(cfg, Calls(cfg, w, Limiter(0, 0, now), idle).1)
      {
        if AllFit(cfg, allowed) {
          AllFitFits(cfg, allowed, w);
        }
        FetchesAreSpaced(cfg, w, Limiter(0, 0, now), idle);
        SpacedAfter(cfg, 0, Calls(cfg, w, Limiter(0, 0, now), idle).1);
      }
    } else {
      var reply := MisfitReply(cfg, allowed);
      SecondCallRushes(cfg, reply);
      assert Obeys(Still(reply), allowed);
    }
  }
}
