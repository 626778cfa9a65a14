/**
 * Login throttling: attempt counters and locks that expire, over explicit time, and how many passwords one epoch
 * checks.
 */
module LoginThrottle {
  import opened Arithmetic
  import opened Common

  datatype Config = Config(maxAttempts: nat, window: nat, duration: nat, delayStep: nat) {
    ghost predicate Valid() {
      maxAttempts > 0 && window > 0 && duration > 0
    }
  }

  // ---- The store with expiry ---------------------------------------------------------------

  datatype Key = Attempts(user: nat) | Lock(user: nat) | Ip(address: string) | Unknown(identifier: string)

  datatype Entry = Entry(value: nat, expires: nat)

  type Redis = map<Key, Entry>

  predicate Present(redis: Redis, key: Key, now: nat) {
    key in redis && now < redis[key].expires
  }

  function Value(redis: Redis, key: Key, now: nat): nat {
    if Present(redis, key, now) then redis[key].value else 0
  }

  /** INCR, then EXPIRE when the value is 1: later increments do not extend the counter. */
  function IncrEx(redis: Redis, key: Key, now: nat, ttl: nat): Redis {
    if Present(redis, key, now) then redis[key := redis[key].(value := redis[key].value + 1)]
    else redis[key := Entry(1, now + ttl)]
  }

  function SetEx(redis: Redis, key: Key, now: nat, ttl: nat): Redis {
    redis[key := Entry(1, now + ttl)]
  }

  // ---- Login ---------------------------------------------------------------------------------

  /**
   * One login: the account it names, if any; when its lock is looked up, when its attempt is counted, and whether
   * the password is right. Or an administrator's unlock.
   */
  datatype Event =
    | Login(user: Option<nat>, identifier: string, ip: string, checkedAt: nat, countedAt: nat, passwordOk: bool)
    | Unlock(who: nat, at: nat)

  datatype Outcome = NotFound | LockedOut | Failed(attempts: nat) | PasswordOk | Unlocked

  function Delay(cfg: Config, redis: Redis, ip: string, now: nat): nat {
    var attempts := Value(redis, Ip(ip), now);
    if attempts > 1 then Min(5000, (attempts - 1) * cfg.delayStep) else 0
  }

  function Step(cfg: Config, redis: Redis, e: Event): (Redis, Outcome) {
    match e
    case Unlock(u, _) => (redis - {Lock(u), Attempts(u)}, Unlocked)
    case Login(who, identifier, ip, checkedAt, countedAt, passwordOk) =>
      if who.None? then (IncrEx(redis, Unknown(identifier), countedAt, cfg.window), NotFound)
      else
        var u := who.value;
        if Present(redis, Lock(u), checkedAt) then (redis, LockedOut)
        else if passwordOk then (redis - {Attempts(u), Lock(u)}, PasswordOk)
        else
          var counted := IncrEx(redis, Attempts(u), countedAt, cfg.window);
          var both := IncrEx(counted, Ip(ip), countedAt, cfg.window);
          var attempts := counted[Attempts(u)].value;
          (if attempts >= cfg.maxAttempts then SetEx(both, Lock(u), countedAt, cfg.duration) else both,
           Failed(attempts))
  }

  function Run(cfg: Config, redis: Redis, events: seq<Event>): Redis {
    if events == [] then redis
    else Step(cfg, Run(cfg, redis, events[..|events| - 1]), events[|events| - 1]).0
  }

  function OutcomeAt(cfg: Config, events: seq<Event>, i: nat): Outcome
    requires i < |events|
  {
    Step(cfg, Run(cfg, map[], events[..i]), events[i]).1
  }

  predicate Concerns(e: Event, u: nat) {
    match e
    case Login(who, _, _, _, _, _) => who == Some(u)
    case Unlock(who, _) => who == u
  }

  function Begins(e: Event): nat {
    match e
    case Login(_, _, _, checkedAt, _, _) => checkedAt
    case Unlock(_, at) => at
  }

  function Ends(e: Event): nat {
    match e
    case Login(_, _, _, _, countedAt, _) => countedAt
    case Unlock(_, at) => at
  }

  /** The events of one account follow each other; those of other accounts may overlap them freely. */
  ghost predicate Sequential(events: seq<Event>, u: nat) {
    && (forall i :: 0 <= i < |events| ==> Begins(events[i]) <= Ends(events[i]))
    && (forall i, j :: 0 <= i < j < |events| && Concerns(events[i], u) && Concerns(events[j], u) ==>
          Ends(events[i]) <= Begins(events[j]))
  }

  // ---- Epochs ----------------------------------------------------------------------------------

  /** Failed checks of one account since its first failure, a success, an unlock or the end of the window. */
  datatype Epoch = Epoch(failures: nat, start: nat, last: nat)

  /** The epoch after a run, counted from what the logins were told and not from the store. */
  function EpochAfter(cfg: Config, events: seq<Event>, u: nat): Epoch {
    if events == [] then Epoch(0, 0, 0)
    else
      var n := |events| - 1;
      var before := EpochAfter(cfg, events[..n], u);
      if !Concerns(events[n], u) then before
      else NextEpoch(cfg, before, events[n], OutcomeAt(cfg, events, n))
  }

  function NextEpoch(cfg: Config, before: Epoch, e: Event, outcome: Outcome): Epoch {
    match outcome
    case Failed(_) =>
      var now := Ends(e);
      if before.failures == 0 || now >= before.start + cfg.window then Epoch(1, now, now)
      else Epoch(before.failures + 1, before.start, now)
    case PasswordOk => Epoch(0, 0, 0)
    case Unlocked => Epoch(0, 0, 0)
    case _ => before
  }

  function CeilDiv(a: nat, b: nat): nat
    requires b > 0
  {
    (a + b - 1) / b
  }

  /** What the store knows of an epoch, and how far its locks have pushed it. */
  ghost predicate Tracks(cfg: Config, redis: Redis, u: nat, e: Epoch) {
    && (e.failures == 0 ==> Attempts(u) !in redis)
    && (e.failures > 0 ==>
          Attempts(u) in redis && redis[Attempts(u)] == Entry(e.failures, e.start + cfg.window)
          && e.start <= e.last < e.start + cfg.window)
    && (e.failures >= cfg.maxAttempts ==> Lock(u) in redis && redis[Lock(u)].expires == e.last + cfg.duration)
    && (e.failures > cfg.maxAttempts ==> e.last >= e.start + (e.failures - cfg.maxAttempts) * cfg.duration)
  }

  lemma OthersDoNotInterfere(cfg: Config, redis: Redis, e: Event, u: nat, key: Key)
    requires !Concerns(e, u) && (key == Attempts(u) || key == Lock(u))
    ensures var after := Step(cfg, redis, e).0;
            (key in after <==> key in redis) && (key in redis ==> after[key] == redis[key])
  {
  }

  /** One failed check: the counter of the epoch, and the lock once it has reached the maximum. */
  lemma FailureTracks(cfg: Config, redis: Redis, e: Event, u: nat, before: Epoch)
    requires cfg.Valid() && Tracks(cfg, redis, u, before) && e.Login? && e.user == Some(u)
    requires before.last <= e.checkedAt <= e.countedAt && Step(cfg, redis, e).1.Failed?
    ensures var now := e.countedAt;
            var after := if before.failures == 0 || now >= before.start + cfg.window then Epoch(1, now, now)
                         else Epoch(before.failures + 1, before.start, now);
            Tracks(cfg, Step(cfg, redis, e).0, u, after) && Step(cfg, redis, e).1 == Failed(after.failures)
  {
    var now := e.countedAt;
    if before.failures >= cfg.maxAttempts && now < before.start + cfg.window {
      assert !Present(redis, Lock(u), e.checkedAt);
      var k := before.failures - cfg.maxAttempts;
      assert (k + 1) * cfg.duration == k * cfg.duration + cfg.duration;
    }
  }

  lemma EventTracks(cfg: Config, redis: Redis, e: Event, u: nat, before: Epoch)
    requires cfg.Valid() && Tracks(cfg, redis, u, before) && Concerns(e, u)
    requires before.last <= Begins(e) <= Ends(e)
    ensures Tracks(cfg, Step(cfg, redis, e).0, u, NextEpoch(cfg, before, e, Step(cfg, redis, e).1))
    ensures Step(cfg, redis, e).1.Failed? ==>
              Step(cfg, redis, e).1.attempts == NextEpoch(cfg, before, e, Step(cfg, redis, e).1).failures
  {
    if Step(cfg, redis, e).1.Failed? {
      FailureTracks(cfg, redis, e, u, before);
    }
  }

  lemma OtherEventTracks(cfg: Config, redis: Redis, e: Event, u: nat, before: Epoch)
    requires Tracks(cfg, redis, u, before) && !Concerns(e, u)
    ensures Tracks(cfg, Step(cfg, redis, e).0, u, before)
  {
    OthersDoNotInterfere(cfg, redis, e, u, Attempts(u));
    OthersDoNotInterfere(cfg, redis, e, u, Lock(u));
    hide Step;
  }

  /** When the last event of an account ended. */
  function LastEnd(events: seq<Event>, u: nat): nat {
    if events == [] then 0
    else if Concerns(events[|events| - 1], u) then Ends(events[|events| - 1])
    else LastEnd(events[..|events| - 1], u)
  }

  lemma {:induction false} LastEndIsEarlier(events: seq<Event>, u: nat, time: nat)
    requires forall i :: 0 <= i < |events| && Concerns(events[i], u) ==> Ends(events[i]) <= time
    ensures LastEnd(events, u) <= time
  {
    if events != [] && !Concerns(events[|events| - 1], u) {
      LastEndIsEarlier(events[..|events| - 1], u, time);
    }
  }

  lemma {:induction false} RunsTrack(cfg: Config, events: seq<Event>, u: nat)
    requires cfg.Valid() && Sequential(events, u)
    ensures var e := EpochAfter(cfg, events, u);
            Tracks(cfg, Run(cfg, map[], events), u, e) && e.last <= LastEnd(events, u)
  {
    if events != [] {
      var n := |events| - 1;
      var first, e := events[..n], events[n];
      RunsTrack(cfg, first, u);
      if Concerns(e, u) {
        LastEndIsEarlier(first, u, Begins(e));
      }
      hide Tracks, Sequential, Concerns, Step, Begins, Ends;
      var redis, before := Run(cfg, map[], first), EpochAfter(cfg, first, u);
      if Concerns(e, u) {
        EventTracks(cfg, redis, e, u, before);
      } else {
        OtherEventTracks(cfg, redis, e, u, before);
      }
    }
  }

  // ---- The bound ---------------------------------------------------------------------------------

  /**
   * In any run an epoch contains at most maxAttempts + ceil(window / duration) - 1 failed checks: a lock expires before
   * the counter does only if the window is longer than the lock.
   */
  lemma FailedChecksAreBounded(cfg: Config, events: seq<Event>, u: nat)
    requires cfg.Valid() && Sequential(events, u)
    ensures EpochAfter(cfg, events, u).failures <= cfg.maxAttempts + CeilDiv(cfg.window, cfg.duration) - 1
    ensures cfg.window == cfg.duration ==> EpochAfter(cfg, events, u).failures <= cfg.maxAttempts
  {
    RunsTrack(cfg, events, u);
    var e := EpochAfter(cfg, events, u);
    if e.failures > cfg.maxAttempts {
      CeilDivExceeds(e.failures - cfg.maxAttempts, cfg.window, cfg.duration);
    } else {
      CeilDivExceeds(0, cfg.window, cfg.duration);
    }
    if cfg.window == cfg.duration {
      CeilDivOfItself(cfg.window);
    }
  }

  lemma CeilDivExceeds(k: nat, a: nat, b: nat)
    requires b > 0
    ensures k * b < a <==> k + 1 <= CeilDiv(a, b)
  {
    DivBounds(a + b - 1, b);
    var q := CeilDiv(a, b);
    hide CeilDiv;
    Distribute(k, b);
    LessIffFactorLess(k, q, b);
    LessIffFactorLess(q, k + 1, b);
    var kb, qb := k * b, q * b;
    assert qb <= a + b - 1 < qb + b && (kb < qb <==> k < q) && (qb < kb + b <==> q < k + 1);
  }

  lemma CeilDivOfItself(a: nat)
    requires a > 0
    ensures CeilDiv(a, a) == 1
  {
  }

  /** The attempts a failed login reports are the failures of its epoch. */
  lemma AttemptsAreTheEpochs(cfg: Config, events: seq<Event>, u: nat, i: nat)
    requires cfg.Valid() && Sequential(events, u) && i < |events| && Concerns(events[i], u)
    requires OutcomeAt(cfg, events, i).Failed?
    ensures OutcomeAt(cfg, events, i).attempts == EpochAfter(cfg, events[..i + 1], u).failures
  {
    var first := events[..i];
    RunsTrack(cfg, first, u);
    LastEndIsEarlier(first, u, Begins(events[i]));
    assert events[..i + 1][..i] == first;
    EventTracks(cfg, Run(cfg, map[], first), events[i], u, EpochAfter(cfg, first, u));
  }

  // ---- The lock ------------------------------------------------------------------------------------

  /**
   * From a failure that locks until `i`'s lock expires, while nobody unlocks the account, the lock stays as it was set.
   */
  lemma {:induction false} LockStays(cfg: Config, events: seq<Event>, u: nat, i: nat, j: nat)
    requires cfg.Valid() && i < j <= |events| && Concerns(events[i], u)
    requires OutcomeAt(cfg, events, i).Failed? && OutcomeAt(cfg, events, i).attempts >= cfg.maxAttempts
    requires forall k :: i < k < j && Concerns(events[k], u) ==>
               events[k].Login? && Begins(events[k]) < Ends(events[i]) + cfg.duration
    ensures var redis := Run(cfg, map[], events[..j]);
            Lock(u) in redis && redis[Lock(u)].expires == Ends(events[i]) + cfg.duration
    decreases j
  {
    assert events[..j][..j - 1] == events[..j - 1];
    if j > i + 1 {
      LockStays(cfg, events, u, i, j - 1);
      var redis, e := Run(cfg, map[], events[..j - 1]), events[j - 1];
      if !Concerns(e, u) {
        OthersDoNotInterfere(cfg, redis, e, u, Lock(u));
      }
    }
  }

  /** While a lock is live no password of that account is checked, unless an administrator unlocks it. */
  lemma LockedAccountsCheckNothing(cfg: Config, events: seq<Event>, u: nat, i: nat, j: nat)
    requires cfg.Valid() && Sequential(events, u) && i < j < |events|
    requires Concerns(events[i], u) && Concerns(events[j], u) && events[j].Login?
    requires OutcomeAt(cfg, events, i).Failed? && OutcomeAt(cfg, events, i).attempts >= cfg.maxAttempts
    requires forall k :: i < k < j && Concerns(events[k], u) ==> events[k].Login?
    requires Begins(events[j]) < Ends(events[i]) + cfg.duration
    ensures OutcomeAt(cfg, events, j) == LockedOut
  {
    LockStays(cfg, events, u, i, j);
  }

  // ---- The bound is reached ---------------------------------------------------------------------------

  /** When the n-th wrong password comes: the first maxAttempts at once, then one whenever a lock expires. */
  function TimeOf(cfg: Config, n: nat): nat {
    if n < cfg.maxAttempts then 0 else (n + 1 - cfg.maxAttempts) * cfg.duration
  }

  function Schedule(cfg: Config, u: nat, n: nat): (events: seq<Event>)
    ensures |events| == n
    ensures forall i :: 0 <= i < n ==> events[i] == Login(Some(u), "", "", TimeOf(cfg, i), TimeOf(cfg, i), false)
  {
    if n == 0 then []
    else Schedule(cfg, u, n - 1) + [Login(Some(u), "", "", TimeOf(cfg, n - 1), TimeOf(cfg, n - 1), false)]
  }

  lemma TimesIncrease(cfg: Config, i: nat, j: nat)
    requires i <= j
    ensures TimeOf(cfg, i) <= TimeOf(cfg, j)
  {
    if j >= cfg.maxAttempts && i >= cfg.maxAttempts {
      assert (i + 1 - cfg.maxAttempts) * cfg.duration <= (j + 1 - cfg.maxAttempts) * cfg.duration;
    }
  }

  lemma ScheduleIsSequential(cfg: Config, u: nat, n: nat)
    ensures Sequential(Schedule(cfg, u, n), u)
  {
    forall i, j | 0 <= i < j < n
      ensures TimeOf(cfg, i) <= TimeOf(cfg, j)
    {
      TimesIncrease(cfg, i, j);
    }
  }

  lemma TimeInWindow(cfg: Config, n: nat)
    requires cfg.Valid() && n < cfg.maxAttempts + CeilDiv(cfg.window, cfg.duration) - 1
    ensures TimeOf(cfg, n) < cfg.window
  {
    if n >= cfg.maxAttempts {
      CeilDivExceeds(n + 1 - cfg.maxAttempts, cfg.window, cfg.duration);
    }
  }

  lemma LastOfRun(cfg: Config, events: seq<Event>, u: nat)
    requires events != [] && Concerns(events[|events| - 1], u)
    ensures var n := |events| - 1;
            var redis := Run(cfg, map[], events[..n]);
            && Run(cfg, map[], events) == Step(cfg, redis, events[n]).0
            && EpochAfter(cfg, events, u)
               == NextEpoch(cfg, EpochAfter(cfg, events[..n], u), events[n], Step(cfg, redis, events[n]).1)
  {
  }

  /** One more wrong password of the schedule: the lock has just expired, the window has not. */
  lemma ScheduleStep(cfg: Config, redis: Redis, e: Event, u: nat, n: nat, before: Epoch)
    requires cfg.Valid() && Tracks(cfg, redis, u, before) && TimeOf(cfg, n) < cfg.window
    requires before == if n == 0 then Epoch(0, 0, 0) else Epoch(n, 0, TimeOf(cfg, n - 1))
    requires n < cfg.maxAttempts ==> Lock(u) !in redis
    requires e == Login(Some(u), "", "", TimeOf(cfg, n), TimeOf(cfg, n), false)
    ensures NextEpoch(cfg, before, e, Step(cfg, redis, e).1) == Epoch(n + 1, 0, TimeOf(cfg, n))
    ensures n + 1 < cfg.maxAttempts ==> Lock(u) !in Step(cfg, redis, e).0
  {
    if n >= cfg.maxAttempts {
      assert (n + 1 - cfg.maxAttempts) * cfg.duration == (n - cfg.maxAttempts) * cfg.duration + cfg.duration;
      assert TimeOf(cfg, n) == TimeOf(cfg, n - 1) + cfg.duration;
    }
  }

  /** The bound is exact: for every configuration and account some run fails that often in one epoch. */
  lemma {:induction false} ScheduleFails(cfg: Config, u: nat, n: nat)
    requires cfg.Valid() && n <= cfg.maxAttempts + CeilDiv(cfg.window, cfg.duration) - 1
    ensures Sequential(Schedule(cfg, u, n), u)
    ensures EpochAfter(cfg, Schedule(cfg, u, n), u)
         == if n == 0 then Epoch(0, 0, 0) else Epoch(n, 0, TimeOf(cfg, n - 1))
    ensures n < cfg.maxAttempts ==> Lock(u) !in Run(cfg, map[], Schedule(cfg, u, n))
  {
    hide EpochAfter, Run, Sequential, CeilDiv, Step, NextEpoch, Tracks, TimeOf;
    ScheduleIsSequential(cfg, u, n);
    var events := Schedule(cfg, u, n);
    if n == 0 {
      EmptyRun(cfg, u);
    } else {
      ScheduleFails(cfg, u, n - 1);
      var first := Schedule(cfg, u, n - 1);
      RunsTrack(cfg, first, u);
      TimeInWindow(cfg, n - 1);
      assert events == first + [events[n - 1]];
      assert events[..n - 1] == first;
      hide Schedule;
      LastOfRun(cfg, events, u);
      ScheduleStep(cfg, Run(cfg, map[], first), events[n - 1], u, n - 1, EpochAfter(cfg, first, u));
    }
  }

  lemma EmptyRun(cfg: Config, u: nat)
    ensures Run(cfg, map[], []) == map[] && EpochAfter(cfg, [], u) == Epoch(0, 0, 0)
  {
  }

  // ---- The login as the service runs it ---------------------------------------------------------------

  class Throttle {
    const cfg: Config
    var redis: Redis

    constructor (cfg: Config)
      ensures redis == map[] && this.cfg == cfg
    {
      this.cfg, redis := cfg, map[];
    }

    method RedisIncrEx(key: Key, now: nat, ttl: nat) returns (value: nat)
      modifies this
      ensures redis == IncrEx(old(redis), key, now, ttl) && value == redis[key].value
    {
      if key !in redis || redis[key].expires <= now {
        value := 1;
        redis := redis[key := Entry(value, now + ttl)];
      } else {
        value := redis[key].value + 1;
        redis := redis[key := Entry(value, redis[key].expires)];
      }
    }

    method RedisSetEx(key: Key, now: nat, ttl: nat)
      modifies this
      ensures redis == SetEx(old(redis), key, now, ttl)
    {
      redis := redis[key := Entry(1, now + ttl)];
    }

    method RedisDel(keys: set<Key>)
      modifies this
      ensures redis == old(redis) - keys
    {
      redis := redis - keys;
    }

    /** How long the address waits before anything is looked up: never more than five seconds. */
    method ProgressiveDelay(ip: string, now: nat) returns (ms: nat)
      ensures ms == Delay(cfg, redis, ip, now) <= 5000
    {
      var attempts := Value(redis, Ip(ip), now);
      ms := 0;
      if attempts > 1 {
        ms := Min(5000, (attempts - 1) * cfg.delayStep);
      }
    }

    method TryLogin(who: Option<nat>, identifier: string, ip: string, checkedAt: nat, countedAt: nat, passwordOk: bool)
      returns (outcome: Outcome)
      modifies this
      ensures (redis, outcome) == Step(cfg, old(redis), Login(who, identifier, ip, checkedAt, countedAt, passwordOk))
    {
      if who.None? {
        var _ := RedisIncrEx(Unknown(identifier), countedAt, cfg.window);
        return NotFound;
      }
      var u := who.value;
      if Present(redis, Lock(u), checkedAt) {
        return LockedOut;
      }
      if !passwordOk {
        var attempts := RedisIncrEx(Attempts(u), countedAt, cfg.window);
        var _ := RedisIncrEx(Ip(ip), countedAt, cfg.window);
        if attempts >= cfg.maxAttempts {
          RedisSetEx(Lock(u), countedAt, cfg.duration);
        }
        return Failed(attempts);
      }
      RedisDel({Attempts(u), Lock(u)});
      return PasswordOk;
    }

    method UnlockAccount(u: nat, at: nat)
      modifies this
      ensures redis == Step(cfg, old(redis), Unlock(u, at)).0
    {
      RedisDel({Lock(u), Attempts(u)});
    }
  }
}
