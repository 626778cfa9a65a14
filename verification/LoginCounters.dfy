/** The counters of addresses and unknown identifiers, the delay they cause, and when exactly an account is locked. */
module LoginCounters {
  import opened Common
  import opened LoginThrottle

  // ---- Counters -----------------------------------------------------------------------------------

  /** How many failures were counted since the first of its window, and when that one was. */
  datatype Counter = Counter(failures: nat, start: nat)

  /** A wrong password from the address, or an unknown user under the identifier. */
  predicate CountsFor(key: Key, e: Event, outcome: Outcome) {
    match key
    case Ip(address) => e.Login? && e.ip == address && outcome.Failed?
    case Unknown(identifier) => e.Login? && e.identifier == identifier && outcome.NotFound?
    case _ => false
  }

  /** The counter after a run, from what the logins were told and not from the store. */
  function CounterAfter(cfg: Config, events: seq<Event>, key: Key): Counter {
    if events == [] then Counter(0, 0)
    else
      var n := |events| - 1;
      var before := CounterAfter(cfg, events[..n], key);
      if !CountsFor(key, events[n], OutcomeAt(cfg, events, n)) then before
      else
        var now := events[n].countedAt;
        if before.failures == 0 || now >= before.start + cfg.window then Counter(1, now)
        else Counter(before.failures + 1, before.start)
  }

  ghost predicate Stores(cfg: Config, redis: Redis, key: Key, c: Counter) {
    && (key in redis <==> c.failures > 0)
    && (c.failures > 0 ==> redis[key] == Entry(c.failures, c.start + cfg.window))
  }

  lemma StepStores(cfg: Config, redis: Redis, e: Event, key: Key, before: Counter)
    requires Stores(cfg, redis, key, before) && (key.Ip? || key.Unknown?)
    ensures var (after, outcome) := Step(cfg, redis, e);
            Stores(cfg, after, key,
                   if !CountsFor(key, e, outcome) then before
                   else if before.failures == 0 || e.countedAt >= before.start + cfg.window then Counter(1, e.countedAt)
                   else Counter(before.failures + 1, before.start))
  {
  }

  /**
   * Over every run, logins of any accounts overlapping as they like: the counter of an address, or of an unknown
   * identifier, is the number of its failures since the first of its window, and ends one window after that one.
   */
  lemma {:induction false} CountersAre(cfg: Config, events: seq<Event>, key: Key)
    requires key.Ip? || key.Unknown?
    ensures var c, redis := CounterAfter(cfg, events, key), Run(cfg, map[], events);
            && (key in redis <==> c.failures > 0)
            && (c.failures > 0 ==> redis[key] == Entry(c.failures, c.start + cfg.window))
  {
    if events != [] {
      var n := |events| - 1;
      CountersAre(cfg, events[..n], key);
      StepStores(cfg, Run(cfg, map[], events[..n]), events[n], key, CounterAfter(cfg, events[..n], key));
      hide Step, CountsFor;
    }
  }

  /**
   * The delay before the next login from an address: none below two failures in a window that is still open, and from
   * two on one step for each failure after the first, up to five seconds.
   */
  lemma DelayIs(cfg: Config, events: seq<Event>, address: string, now: nat)
    ensures var c, delay := CounterAfter(cfg, events, Ip(address)), Delay(cfg, Run(cfg, map[], events), address, now);
            if c.failures < 2 || now >= c.start + cfg.window then delay == 0
            else delay == if (c.failures - 1) * cfg.delayStep <= 5000 then (c.failures - 1) * cfg.delayStep else 5000
  {
    CountersAre(cfg, events, Ip(address));
    hide Run, CounterAfter;
  }

  // ---- Locks -----------------------------------------------------------------------------------------

  /** When the lock of an account ends, if one was set since the last unlock or right password. */
  function LockAfter(cfg: Config, events: seq<Event>, u: nat): Option<nat> {
    if events == [] then None
    else
      var n := |events| - 1;
      if !Concerns(events[n], u) then LockAfter(cfg, events[..n], u)
      else
        match OutcomeAt(cfg, events, n)
        case Failed(attempts) =>
          if attempts >= cfg.maxAttempts then Some(Ends(events[n]) + cfg.duration) else LockAfter(cfg, events[..n], u)
        case PasswordOk => None
        case Unlocked => None
        case _ => LockAfter(cfg, events[..n], u)
  }

  ghost predicate Locks(redis: Redis, u: nat, end: Option<nat>) {
    (Lock(u) in redis <==> end.Some?) && (end.Some? ==> redis[Lock(u)].expires == end.value)
  }

  lemma StepLocks(cfg: Config, redis: Redis, e: Event, u: nat, before: Option<nat>)
    requires Locks(redis, u, before) && Concerns(e, u)
    ensures var (after, outcome) := Step(cfg, redis, e);
            Locks(after, u, match outcome
                            case Failed(attempts) =>
                              if attempts >= cfg.maxAttempts then Some(Ends(e) + cfg.duration) else before
                            case PasswordOk => None
                            case Unlocked => None
                            case _ => before)
  {
  }

  lemma {:induction false} RunLocks(cfg: Config, events: seq<Event>, u: nat)
    ensures Locks(Run(cfg, map[], events), u, LockAfter(cfg, events, u))
  {
    if events != [] {
      var n := |events| - 1;
      RunLocks(cfg, events[..n], u);
      var redis := Run(cfg, map[], events[..n]);
      if Concerns(events[n], u) {
        StepLocks(cfg, redis, events[n], u, LockAfter(cfg, events[..n], u));
      } else {
        OthersDoNotInterfere(cfg, redis, events[n], u, Lock(u));
      }
      hide Step, Concerns;
    }
  }

  /**
   * What a login is told, over every run: an unknown user nothing more; a known one that the account is locked, exactly
   * while a lock lasts that was set by its last locking failure and neither unlocked nor passed since; and otherwise
   * whether the password is right.
   */
  lemma OutcomeIs(cfg: Config, events: seq<Event>, i: nat)
    requires i < |events| && events[i].Login?
    ensures var e, outcome := events[i], OutcomeAt(cfg, events, i);
            && (outcome.NotFound? <==> e.user.None?)
            && (e.user.Some? ==>
                  var end := LockAfter(cfg, events[..i], e.user.value);
                  && (outcome.LockedOut? <==> end.Some? && e.checkedAt < end.value)
                  && (!outcome.LockedOut? ==> if e.passwordOk then outcome.PasswordOk? else outcome.Failed?))
  {
    if events[i].user.Some? {
      RunLocks(cfg, events[..i], events[i].user.value);
    }
    hide Run, LockAfter;
  }
}
