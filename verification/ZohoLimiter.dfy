/** Spacing, retries and exponential backoff of the Zoho Sheet API calls, over an explicit clock in milliseconds. */
module ZohoLimiter {
  import opened Arithmetic
  import opened Common

  datatype Config = Config(minInterval: nat, maxRetries: nat, backoffBase: nat)

  /** What one fetch brings back; `retryAfter` is the parsed Retry-After header. */
  datatype Reply = NetworkError | Reply(status: nat, retryAfter: Option<nat>, apiError: bool)

  /** The surroundings of a run: how late a timer set at a time fires, how long a fetch takes, what it returns. */
  datatype World = World(late: nat -> nat, took: nat -> nat, reply: nat -> Reply)

  datatype Limiter = Limiter(lastCallAt: nat, backoff: nat, now: nat) {
    ghost predicate Valid() {
      lastCallAt <= now
    }
  }

  const MAX_TIMER: nat := 0x7FFF_FFFF

  /** setTimeout: a delay below 1 or above 2^31 - 1 is replaced by 1. */
  function TimerDelay(ms: nat): (delay: nat)
    ensures delay >= 1
  {
    if 1 <= ms <= MAX_TIMER then ms else 1
  }

  function Slept(w: World, now: nat, ms: nat): (after: nat)
    ensures after > now
  {
    now + TimerDelay(ms) + w.late(now)
  }

  predicate Retryable(r: Reply) {
    r.Reply? && (r.status == 429 || r.status >= 500)
  }

  predicate Succeeds(r: Reply) {
    r.Reply? && 200 <= r.status < 300 && !r.apiError
  }

  function Backoff(cfg: Config, r: Reply, attempt: nat): nat
    requires attempt >= 1
  {
    if r.Reply? && r.retryAfter.Some? then r.retryAfter.value else cfg.backoffBase * Pow2(attempt - 1)
  }

  /** The time a call has to keep from the previous one. */
  function Wait(cfg: Config, l: Limiter): nat {
    Max(l.backoff, cfg.minInterval)
  }

  function Throttled(cfg: Config, w: World, l: Limiter): (after: Limiter)
    requires l.Valid()
    ensures after.lastCallAt == after.now >= l.now && after.backoff == l.backoff
  {
    var since := l.now - l.lastCallAt;
    var now := if since < Wait(cfg, l) then Slept(w, l.now, Wait(cfg, l) - since) else l.now;
    Limiter(now, l.backoff, now)
  }

  /** One logical call: when its fetches started, the backoff kept after each retried one, and the last reply. */
  datatype CallRun = CallRun(state: Limiter, starts: seq<nat>, waits: seq<nat>, last: Reply)

  function Call(cfg: Config, w: World, l: Limiter, attempt: nat): (run: CallRun)
    requires l.Valid() && attempt >= 1
    ensures run.state.Valid() && run.starts != [] && |run.waits| == |run.starts| - 1
    decreases cfg.maxRetries + 1 - attempt
  {
    var t := Throttled(cfg, w, l);
    var reply := w.reply(t.now);
    var after := t.(now := t.now + w.took(t.now));
    if Retryable(reply) && attempt <= cfg.maxRetries then
      var backoff := Backoff(cfg, reply, attempt);
      var rest := Call(cfg, w, after.(backoff := backoff, now := Slept(w, after.now, backoff)), attempt + 1);
      rest.(starts := [t.now] + rest.starts, waits := [backoff] + rest.waits)
    else
      CallRun(if Succeeds(reply) then after.(backoff := 0) else after, [t.now], [], reply)
  }

  // ---- Spacing ------------------------------------------------------------------------

  /** Whatever the timer does, the next call keeps the distance, exactly when the timer can hold the remaining wait. */
  lemma ThrottleKeepsWait(cfg: Config, l: Limiter, took: nat -> nat, reply: nat -> Reply)
    requires l.Valid()
    ensures (forall late :: Throttled(cfg, World(late, took, reply), l).now >= l.lastCallAt + Wait(cfg, l))
            <==> Wait(cfg, l) - (l.now - l.lastCallAt) <= MAX_TIMER
  {
    var onTime := World(_ => 0, took, reply);
    assert World(_ => 0, took, reply).late(l.now) == 0;
    if Wait(cfg, l) - (l.now - l.lastCallAt) > MAX_TIMER {
      assert Throttled(cfg, onTime, l).now == l.now + 1;
      assert Throttled(cfg, World(onTime.late, took, reply), l).now < l.lastCallAt + Wait(cfg, l);
    }
  }

  /** The same for the interval alone: it is kept as well when it has nearly passed already. */
  lemma ThrottleKeepsInterval(cfg: Config, l: Limiter, took: nat -> nat, reply: nat -> Reply)
    requires l.Valid()
    ensures (forall late :: Throttled(cfg, World(late, took, reply), l).now >= l.lastCallAt + cfg.minInterval)
            <==> || Wait(cfg, l) - (l.now - l.lastCallAt) <= MAX_TIMER
                 || l.now + 1 - l.lastCallAt >= cfg.minInterval
  {
    var onTime := World(_ => 0, took, reply);
    assert World(_ => 0, took, reply).late(l.now) == 0;
    if Wait(cfg, l) - (l.now - l.lastCallAt) > MAX_TIMER && l.now + 1 - l.lastCallAt < cfg.minInterval {
      assert Throttled(cfg, onTime, l).now == l.now + 1;
      assert Throttled(cfg, World(onTime.late, took, reply), l).now < l.lastCallAt + cfg.minInterval;
    }
  }

  /** Consecutive starts at least the configured interval apart. */
  ghost predicate Spaced(cfg: Config, starts: seq<nat>) {
    forall i :: 0 < i < |starts| ==> starts[i] >= starts[i - 1] + cfg.minInterval
  }

  /** Every wait that this configuration and these replies can ask for fits a timer. */
  ghost predicate WaitsFit(cfg: Config, w: World) {
    && cfg.minInterval <= MAX_TIMER
    && (cfg.maxRetries > 0 ==>
          && cfg.backoffBase * Pow2(cfg.maxRetries - 1) <= MAX_TIMER
          && forall t :: w.reply(t).Reply? && w.reply(t).retryAfter.Some? ==> w.reply(t).retryAfter.value <= MAX_TIMER)
  }

  lemma {:induction false} Pow2Grows(i: nat, n: nat, base: nat)
    requires i <= n
    ensures base * Pow2(i) <= base * Pow2(n)
    decreases n
  {
    if i < n {
      Pow2Grows(i, n - 1, base);
      assert base * Pow2(n) == 2 * (base * Pow2(n - 1));
    }
  }

  lemma BackoffFits(cfg: Config, w: World, t: nat, attempt: nat)
    requires WaitsFit(cfg, w) && 1 <= attempt <= cfg.maxRetries
    ensures Backoff(cfg, w.reply(t), attempt) <= MAX_TIMER
  {
    Pow2Grows(attempt - 1, cfg.maxRetries - 1, cfg.backoffBase);
  }

  /** Calls of one limiter, the i-th made `idle[i]` after the previous one returned: all their fetches, in order. */
  function Calls(cfg: Config, w: World, l: Limiter, idle: seq<nat>): (r: (Limiter, seq<nat>))
    requires l.Valid()
    ensures r.0.Valid()
  {
    if idle == [] then (l, [])
    else
      var before := Calls(cfg, w, l, idle[..|idle| - 1]);
      var run := Call(cfg, w, before.0.(now := before.0.now + idle[|idle| - 1]), 1);
      (run.state, before.1 + run.starts)
  }

  /** When the first fetch of a call is retried, and when the retry starts. */
  lemma RetryStartsAt(cfg: Config, w: World, l: Limiter, attempt: nat)
    requires l.Valid() && 1 <= attempt <= cfg.maxRetries
    requires var t := Throttled(cfg, w, l); Retryable(w.reply(t.now))
    ensures var t := Throttled(cfg, w, l);
            var backoff := Backoff(cfg, w.reply(t.now), attempt);
            var again := Limiter(t.now, backoff, Slept(w, t.now + w.took(t.now), backoff));
            var starts := Call(cfg, w, l, attempt).starts;
            |starts| > 1 && starts[0] == t.now && starts[1] == Throttled(cfg, w, again).now
  {
    hide Backoff, Slept, Throttled, Retryable;
  }

  /** A Retry-After of 25 days does not fit a timer: the retry starts two milliseconds after the first fetch. */
  lemma LongRetryAfterIsIgnored()
    ensures var cfg := Config(350, 3, 1000);
            var w := World(_ => 0, _ => 0, _ => Reply(429, Some(2_160_000_000), false));
            var starts := Call(cfg, w, Limiter(0, 0, 1_000_000), 1).starts;
            |starts| > 1 && starts[1] - starts[0] == 2 < cfg.minInterval
  {
    hide Call;
    RetryStartsAt(Config(350, 3, 1000), World(_ => 0, _ => 0, _ => Reply(429, Some(2_160_000_000), false)),
                  Limiter(0, 0, 1_000_000), 1);
  }

  // ---- Number of fetches ----------------------------------------------------------------

  /** Every fetch but the last was answered with a retryable status; the last one was not, or retries ran out. */
  lemma {:induction false} CallGoesOn(cfg: Config, w: World, l: Limiter, attempt: nat)
    requires l.Valid() && 1 <= attempt <= cfg.maxRetries + 1
    ensures var r := Call(cfg, w, l, attempt);
            var n := |r.starts|;
            && n + attempt <= cfg.maxRetries + 2
            && (forall i :: 0 <= i < n - 1 ==> Retryable(w.reply(r.starts[i])))
            && r.last == w.reply(r.starts[n - 1])
            && (Retryable(r.last) ==> n + attempt == cfg.maxRetries + 2)
            && (forall i :: 0 <= i < n - 1 ==> r.waits[i] == Backoff(cfg, w.reply(r.starts[i]), attempt + i))
    decreases cfg.maxRetries + 1 - attempt
  {
    hide Throttled, Slept, Backoff, Retryable, Wait;
    var t := Throttled(cfg, w, l);
    var reply := w.reply(t.now);
    if Retryable(reply) && attempt <= cfg.maxRetries {
      var backoff := Backoff(cfg, reply, attempt);
      var after := t.now + w.took(t.now);
      CallGoesOn(cfg, w, Limiter(t.now, backoff, Slept(w, after, backoff)), attempt + 1);
    }
  }

  /** A status that is tried again: 429, or 500 and above; a network error is not. */
  predicate TriedAgain(r: Reply) {
    r.Reply? && (r.status == 429 || r.status >= 500)
  }

  /**
   * A call fetches at most once more than its retries. Every fetch but the last was answered 429, or 500 and above; if
   * the last one was too, the retries ran out. The i-th wait is the Retry-After of the answer, or else the doubled
   * base.
   */
  lemma CallRetries(cfg: Config, w: World, l: Limiter)
    requires l.Valid()
    ensures var r := Call(cfg, w, l, 1);
            var n := |r.starts|;
            && 1 <= n <= cfg.maxRetries + 1 && |r.waits| == n - 1 && r.last == w.reply(r.starts[n - 1])
            && (forall i :: 0 <= i < n - 1 ==> TriedAgain(w.reply(r.starts[i])))
            && (TriedAgain(r.last) ==> n == cfg.maxRetries + 1)
            && forall i :: 0 <= i < n - 1 ==>
                 var reply := w.reply(r.starts[i]);
                 r.waits[i] == if reply.retryAfter.Some? then reply.retryAfter.value else cfg.backoffBase * Pow2(i)
  {
    hide Call, Pow2;
    CallGoesOn(cfg, w, l, 1);
    var r := Call(cfg, w, l, 1);
    forall i | 0 <= i < |r.starts| - 1
      ensures var reply := w.reply(r.starts[i]);
              TriedAgain(reply)
              && r.waits[i] == if reply.retryAfter.Some? then reply.retryAfter.value else cfg.backoffBase * Pow2(i)
    {
      assert Retryable(w.reply(r.starts[i])) && r.waits[i] == Backoff(cfg, w.reply(r.starts[i]), 1 + i);
    }
  }

  /** A timer sleeps its delay exactly from one millisecond to 2^31 - 1; any other delay becomes one millisecond. */
  lemma TimerHoldsIff(ms: nat)
    ensures TimerDelay(ms) == ms <==> 1 <= ms <= 2_147_483_647
    ensures TimerDelay(ms) != ms ==> TimerDelay(ms) == 1
  {
  }

  // ---- Total backoff ----------------------------------------------------------------------

  function Sum(s: seq<nat>): nat {
    if s == [] then 0 else Sum(s[..|s| - 1]) + s[|s| - 1]
  }

  function SumDelays(s: seq<nat>): nat {
    if s == [] then 0 else SumDelays(s[..|s| - 1]) + TimerDelay(s[|s| - 1])
  }

  ghost predicate Doubling(base: nat, waits: seq<nat>) {
    forall i :: 0 <= i < |waits| ==> waits[i] == base * Pow2(i)
  }

  lemma DoublingPrefix(base: nat, waits: seq<nat>)
    requires Doubling(base, waits) && waits != []
    ensures var n := |waits| - 1; Doubling(base, waits[..n]) && waits[n] == base * Pow2(n)
  {
  }

  /** The waits of a call whose replies carry no Retry-After are powers of two of the base. */
  lemma {:induction false} PowersAddUp(base: nat, waits: seq<nat>)
    requires Doubling(base, waits)
    ensures Sum(waits) == base * (Pow2(|waits|) - 1)
  {
    if waits != [] {
      var n := |waits| - 1;
      DoublingPrefix(base, waits);
      PowersAddUp(base, waits[..n]);
      hide Doubling;
      assert base * (Pow2(n + 1) - 1) == base * (Pow2(n) - 1) + base * Pow2(n);
    }
  }

  lemma {:induction false} DelaysAddUp(base: nat, waits: seq<nat>)
    requires Doubling(base, waits) && base > 0
    ensures SumDelays(waits) <= Sum(waits)
    ensures SumDelays(waits) == Sum(waits) <==> waits == [] || base * Pow2(|waits| - 1) <= MAX_TIMER
  {
    if waits != [] {
      var n := |waits| - 1;
      DoublingPrefix(base, waits);
      DelaysAddUp(base, waits[..n]);
      Pow2Grows(0, n, base);
      if n > 0 {
        Pow2Grows(n - 1, n, base);
      }
      hide Doubling, Pow2;
    }
  }

  /**
   * k retries without Retry-After keep backoffs that sum to base * (2^k - 1); the timers sleep exactly that
   * if and only if the longest of them fits a timer.
   */
  lemma BackoffAddsUp(cfg: Config, w: World, l: Limiter)
    requires l.Valid() && cfg.backoffBase > 0
    requires forall t :: w.reply(t).Reply? ==> w.reply(t).retryAfter.None?
    ensures var r := Call(cfg, w, l, 1);
            var k := |r.waits|;
            && k <= cfg.maxRetries && Sum(r.waits) == cfg.backoffBase * (Pow2(k) - 1)
            && (SumDelays(r.waits) == cfg.backoffBase * (Pow2(k) - 1)
                <==> k == 0 || cfg.backoffBase * Pow2(k - 1) <= MAX_TIMER)
  {
    hide Call, Sum, SumDelays, Pow2;
    WaitsDouble(cfg, w, l);
    var waits := Call(cfg, w, l, 1).waits;
    PowersAddUp(cfg.backoffBase, waits);
    DelaysAddUp(cfg.backoffBase, waits);
  }

  lemma WaitsDouble(cfg: Config, w: World, l: Limiter)
    requires l.Valid()
    requires forall t :: w.reply(t).Reply? ==> w.reply(t).retryAfter.None?
    ensures var waits := Call(cfg, w, l, 1).waits;
            Doubling(cfg.backoffBase, waits) && |waits| <= cfg.maxRetries
  {
    hide Call, Pow2, Retryable;
    CallGoesOn(cfg, w, l, 1);
    var run := Call(cfg, w, l, 1);
    forall i | 0 <= i < |run.waits|
      ensures run.waits[i] == cfg.backoffBase * Pow2(i)
    {
      assert run.waits[i] == Backoff(cfg, w.reply(run.starts[i]), 1 + i);
    }
  }

  /** The limiter is back to the plain interval after a success, and keeps the last backoff after a failure. */
  lemma {:induction false} BackoffAfterCall(cfg: Config, w: World, l: Limiter, attempt: nat)
    requires l.Valid() && attempt >= 1
    ensures var r := Call(cfg, w, l, attempt);
            r.state.backoff == if r.last.Reply? && 200 <= r.last.status <= 299 && !r.last.apiError then 0
                               else if r.waits == [] then l.backoff else r.waits[|r.waits| - 1]
    decreases cfg.maxRetries + 1 - attempt
  {
    var t := Throttled(cfg, w, l);
    var reply := w.reply(t.now);
    if Retryable(reply) && attempt <= cfg.maxRetries {
      var backoff := Backoff(cfg, reply, attempt);
      var after := t.now + w.took(t.now);
      BackoffAfterCall(cfg, w, Limiter(t.now, backoff, Slept(w, after, backoff)), attempt + 1);
    }
  }

  lemma CallUnfolds(cfg: Config, w: World, l: Limiter, attempt: nat)
    requires l.Valid() && attempt >= 1
    ensures var t := Throttled(cfg, w, l);
            var reply := w.reply(t.now);
            var after := t.(now := t.now + w.took(t.now));
            Call(cfg, w, l, attempt)
            == if Retryable(reply) && attempt <= cfg.maxRetries then
                 var backoff := Backoff(cfg, reply, attempt);
                 var rest := Call(cfg, w, after.(backoff := backoff, now := Slept(w, after.now, backoff)), attempt + 1);
                 rest.(starts := [t.now] + rest.starts, waits := [backoff] + rest.waits)
               else CallRun(if Succeeds(reply) then after.(backoff := 0) else after, [t.now], [], reply)
  {
    hide Throttled, Backoff, Slept, Succeeds, Retryable;
  }

  // ---- The limiter and the call as the service runs them ------------------------------------

  class RateLimiter {
    const cfg: Config
    var lastCallAt: nat
    var backoffMs: nat
    var now: nat
    var starts: seq<nat>

    ghost predicate Valid()
      reads this
    {
      State().Valid()
    }

    function State(): Limiter
      reads this
    {
      Limiter(lastCallAt, backoffMs, now)
    }

    constructor (cfg: Config, now: nat)
      ensures Valid() && State() == Limiter(0, 0, now) && starts == [] && this.cfg == cfg
    {
      this.cfg, this.now := cfg, now;
      lastCallAt, backoffMs, starts := 0, 0, [];
    }

    method Sleep(w: World, ms: nat)
      modifies this`now
      ensures now == Slept(w, old(now), ms)
    {
      now := now + TimerDelay(ms) + w.late(now);
    }

    method Throttle(w: World)
      requires Valid()
      modifies this`now, this`lastCallAt
      ensures Valid() && State() == Throttled(cfg, w, old(State()))
    {
      var wait := Max(backoffMs, cfg.minInterval);
      var since := now - lastCallAt;
      if since < wait {
        Sleep(w, wait - since);
      }
      lastCallAt := now;
    }

    method NoteBackoff(ms: nat)
      modifies this`backoffMs
      ensures backoffMs == ms
    {
      backoffMs := ms;
    }

    /** The call, retried by calling itself; true when it returned data, false when it threw. */
    method ZohoApi(w: World, attempt: nat := 1) returns (ok: bool)
      requires Valid() && attempt >= 1
      modifies this
      ensures var run := Call(cfg, w, old(State()), attempt);
              && Valid() && State() == run.state && starts == old(starts) + run.starts
              && ok == (run.last.Reply? && 200 <= run.last.status <= 299 && !run.last.apiError)
      decreases cfg.maxRetries + 1 - attempt
    {
      hide Backoff, Slept, Throttled, Retryable, Pow2, Call;
      CallUnfolds(cfg, w, State(), attempt);
      Throttle(w);
      var reply := w.reply(now);
      starts := starts + [now];
      now := now + w.took(now);
      if Retryable(reply) && attempt <= cfg.maxRetries {
        var backoff := Backoff(cfg, reply, attempt);
        NoteBackoff(backoff);
        Sleep(w, backoff);
        ok := ZohoApi(w, attempt + 1);
        return;
      }
      if !Succeeds(reply) {
        return false;
      }
      NoteBackoff(0);
      return true;
    }
  }
}
