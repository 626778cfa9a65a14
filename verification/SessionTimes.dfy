/**
 * How long sessions and refresh tokens last, which device a session carries and why rows are revoked, over whole runs.
 */
module SessionTimes {
  import opened Common
  import opened Sessions
  import opened SessionLaws

  const EMPTY := Store(map[], map[], map[])

  // ---- Times of a session -----------------------------------------------------------------------

  /** When a session was logged in, and when it was last refreshed, or else logged in. */
  datatype Times = Times(login: nat, touched: nat)

  /** The times of a session after a run, from its logins and the refreshes that issued a token. */
  ghost function TimesOf(guard: Guard, ttl: Ttl, events: seq<(nat, Event)>, sid: nat): Option<Times> {
    if events == [] then None
    else
      var n := |events| - 1;
      var store := Run(guard, ttl, EMPTY, events[..n]);
      NextTimes(guard, ttl, store, events[n].0, events[n].1, sid, TimesOf(guard, ttl, events[..n], sid))
  }

  ghost function NextTimes(guard: Guard, ttl: Ttl, store: Store, now: nat, e: Event, sid: nat, before: Option<Times>)
    : Option<Times>
  {
    match e
    case Login(_, _, ids) => if ids.session == sid && IsFresh(store, ids) then Some(Times(now, now)) else before
    case Refresh(presented, hash) =>
      var outcome := Rotate(guard, store, ttl, now, presented, hash).1;
      if before.Some? && outcome.Issued? && outcome.session == sid then Some(before.value.(touched := now)) else before
    case _ => before
  }

  /** The row of the session carries those times. */
  ghost predicate Keeps(ttl: Ttl, store: Store, sid: nat, times: Option<Times>) {
    && (sid in store.sessions <==> times.Some?)
    && (times.Some? ==>
          && store.sessions[sid].expiresAt == times.value.login + ttl.absolute
          && store.sessions[sid].idleExpiresAt == times.value.touched + ttl.idle)
  }

  lemma RevokingKeepsTimes(ttl: Ttl, before: Store, after: Store, sid: nat, times: Option<Times>)
    requires Keeps(ttl, before, sid, times) && OnlyRevokes(before, after)
    ensures Keeps(ttl, after, sid, times)
  {
  }

  lemma LoginKeepsTimes(guard: Guard, ttl: Ttl, store: Store, now: nat, e: Event, sid: nat, times: Option<Times>)
    requires Keeps(ttl, store, sid, times) && e.Login?
    ensures Keeps(ttl, Step(guard, ttl, store, now, e), sid, NextTimes(guard, ttl, store, now, e, sid, times))
  {
  }

  lemma RefreshKeepsTimes(guard: Guard, ttl: Ttl, store: Store, now: nat, presented: nat, hash: nat, sid: nat,
                          times: Option<Times>)
    requires Sound(store) && Keeps(ttl, store, sid, times)
    ensures Keeps(ttl, Rotate(guard, store, ttl, now, presented, hash).0, sid,
                  NextTimes(guard, ttl, store, now, Refresh(presented, hash), sid, times))
  {
    hide Sound, Keeps, Rotated, RevokeTokenFamily, Untouched, Dead, OnlyRevokes;
    var (after, outcome) := Rotate(guard, store, ttl, now, presented, hash);
    if outcome.Reused? {
      RevokeFamilyKills(store, presented, "REUSE_DETECTED");
      RevokingKeepsTimes(ttl, store, after, sid, times);
    } else if outcome.Issued? {
      RotatedKeepsTimes(ttl, store, now, presented, hash, sid, times);
    }
  }

  lemma RotatedKeepsTimes(ttl: Ttl, store: Store, now: nat, presented: nat, hash: nat, sid: nat, times: Option<Times>)
    requires Sound(store) && Keeps(ttl, store, sid, times)
    requires presented in store.tokens && Live(store.tokens[presented])
    ensures Keeps(ttl, Rotated(store, ttl, now, presented, hash), sid,
                  if times.Some? && store.tokens[presented].session == sid then Some(times.value.(touched := now))
                  else times)
  {
    var t := store.tokens[presented];
    assert t.session in store.sessions && store.sessions[t.session].revoked.None?;
    hide Sound;
  }

  lemma StepKeepsTimes(guard: Guard, ttl: Ttl, store: Store, now: nat, e: Event, sid: nat, times: Option<Times>)
    requires Sound(store) && Keeps(ttl, store, sid, times)
    ensures Keeps(ttl, Step(guard, ttl, store, now, e), sid, NextTimes(guard, ttl, store, now, e, sid, times))
  {
    hide Sound, Keeps, Rotate, CreateSession, RevokeSession, RevokeAllUserSessions, RevokeDevice, OnlyRevokes,
         Untouched, Dead, IsFresh;
    match e
    case Login(_, _, _) => LoginKeepsTimes(guard, ttl, store, now, e, sid, times);
    case Refresh(presented, hash) => RefreshKeepsTimes(guard, ttl, store, now, presented, hash, sid, times);
    case Revoke(revoked, reason) =>
      RevokeSessionKills(store, revoked, reason);
      RevokingKeepsTimes(ttl, store, RevokeSession(store, revoked, reason), sid, times);
    case RevokeAll(user, except, reason) =>
      RevokeAllKills(store, user, except, reason);
      RevokingKeepsTimes(ttl, store, RevokeAllUserSessions(store, user, except, reason), sid, times);
    case RevokeOneDevice(device, user) =>
      RevokeDeviceKills(store, device, user);
      RevokingKeepsTimes(ttl, store, RevokeDevice(store, device, user), sid, times);
  }

  lemma {:induction false} RunsKeepTimes(guard: Guard, ttl: Ttl, events: seq<(nat, Event)>, sid: nat)
    ensures Keeps(ttl, Run(guard, ttl, EMPTY, events), sid, TimesOf(guard, ttl, events, sid))
  {
    if events != [] {
      var n := |events| - 1;
      RunsKeepTimes(guard, ttl, events[..n], sid);
      ReachableIsSound(guard, ttl, events[..n]);
      hide Sound, Keeps, Step, NextTimes;
      StepKeepsTimes(guard, ttl, Run(guard, ttl, EMPTY, events[..n]), events[n].0, events[n].1, sid,
                     TimesOf(guard, ttl, events[..n], sid));
    }
  }

  /**
   * Over every run a session is there exactly when it was logged in; and it is usable at `t` exactly when it is not
   * revoked, `t` is at most the absolute time after its login, and at most the idle time after its last refresh, or
   * after its login if it was never refreshed.
   */
  lemma UsableIff(guard: Guard, ttl: Ttl, events: seq<(nat, Event)>, sid: nat, t: nat)
    ensures var store, times := Run(guard, ttl, EMPTY, events), TimesOf(guard, ttl, events, sid);
            && (sid in store.sessions <==> times.Some?)
            && (times.Some? ==>
                  (SessionUsable(store.sessions[sid], t) <==>
                     && store.sessions[sid].revoked.None?
                     && t <= times.value.login + ttl.absolute && t <= times.value.touched + ttl.idle))
  {
    RunsKeepTimes(guard, ttl, events, sid);
    hide Run, TimesOf;
  }

  // ---- Times of a token ---------------------------------------------------------------------------

  /** When a token was issued, by a login or by a refresh. */
  ghost function IssuedAt(guard: Guard, ttl: Ttl, events: seq<(nat, Event)>, h: nat): Option<nat> {
    if events == [] then None
    else
      var n := |events| - 1;
      var store, now := Run(guard, ttl, EMPTY, events[..n]), events[n].0;
      if Issues(guard, ttl, store, now, events[n].1, h) then Some(now) else IssuedAt(guard, ttl, events[..n], h)
  }

  ghost predicate Issues(guard: Guard, ttl: Ttl, store: Store, now: nat, e: Event, h: nat) {
    match e
    case Login(_, _, ids) => ids.hash == h && IsFresh(store, ids)
    case Refresh(presented, hash) => hash == h && Rotate(guard, store, ttl, now, presented, hash).1.Issued?
    case _ => false
  }

  ghost predicate Expires(ttl: Ttl, store: Store, h: nat, issued: Option<nat>) {
    (h in store.tokens <==> issued.Some?) && (issued.Some? ==> store.tokens[h].expiresAt == issued.value + ttl.refresh)
  }

  lemma RevokingKeepsExpiry(ttl: Ttl, before: Store, after: Store, h: nat, issued: Option<nat>)
    requires Expires(ttl, before, h, issued) && OnlyRevokes(before, after)
    ensures Expires(ttl, after, h, issued)
  {
  }

  lemma IssuingKeepsExpiry(guard: Guard, ttl: Ttl, store: Store, now: nat, e: Event, h: nat, issued: Option<nat>)
    requires Sound(store) && Expires(ttl, store, h, issued)
    requires e.Login? || (e.Refresh? && !Rotate(guard, store, ttl, now, e.presented, e.hash).1.Reused?)
    ensures Expires(ttl, Step(guard, ttl, store, now, e), h,
                    if Issues(guard, ttl, store, now, e, h) then Some(now) else issued)
  {
    hide RevokeTokenFamily, Sound;
  }

  lemma StepKeepsExpiry(guard: Guard, ttl: Ttl, store: Store, now: nat, e: Event, h: nat, issued: Option<nat>)
    requires Sound(store) && Expires(ttl, store, h, issued)
    ensures Expires(ttl, Step(guard, ttl, store, now, e), h,
                    if Issues(guard, ttl, store, now, e, h) then Some(now) else issued)
  {
    hide Sound, Expires, CreateSession, RevokeSession, RevokeAllUserSessions, RevokeDevice, OnlyRevokes, Untouched,
         Dead, IsFresh, Rotated, RevokeTokenFamily;
    match e
    case Login(_, _, _) => IssuingKeepsExpiry(guard, ttl, store, now, e, h, issued);
    case Refresh(presented, hash) =>
      if Rotate(guard, store, ttl, now, presented, hash).1.Reused? {
        RevokeFamilyKills(store, presented, "REUSE_DETECTED");
        RevokingKeepsExpiry(ttl, store, Rotate(guard, store, ttl, now, presented, hash).0, h, issued);
      } else {
        IssuingKeepsExpiry(guard, ttl, store, now, e, h, issued);
      }
    case Revoke(sid, reason) =>
      RevokeSessionKills(store, sid, reason);
      RevokingKeepsExpiry(ttl, store, RevokeSession(store, sid, reason), h, issued);
    case RevokeAll(user, except, reason) =>
      RevokeAllKills(store, user, except, reason);
      RevokingKeepsExpiry(ttl, store, RevokeAllUserSessions(store, user, except, reason), h, issued);
    case RevokeOneDevice(device, user) =>
      RevokeDeviceKills(store, device, user);
      RevokingKeepsExpiry(ttl, store, RevokeDevice(store, device, user), h, issued);
  }

  lemma {:induction false} RunsKeepExpiry(guard: Guard, ttl: Ttl, events: seq<(nat, Event)>, h: nat)
    ensures Expires(ttl, Run(guard, ttl, EMPTY, events), h, IssuedAt(guard, ttl, events, h))
  {
    if events != [] {
      var n := |events| - 1;
      RunsKeepExpiry(guard, ttl, events[..n], h);
      ReachableIsSound(guard, ttl, events[..n]);
      hide Sound, Expires, Step, Issues;
      StepKeepsExpiry(guard, ttl, Run(guard, ttl, EMPTY, events[..n]), events[n].0, events[n].1, h,
                      IssuedAt(guard, ttl, events[..n], h));
    }
  }

  /**
   * Over every run a token is known exactly when it was issued, and it can be refreshed into a new one at `t` exactly
   * when it is not revoked, `t` is at most the refresh time after its issue, and the guard lets a successor pass.
   */
  lemma RefreshableIff(guard: Guard, ttl: Ttl, events: seq<(nat, Event)>, h: nat, t: nat, next: nat)
    requires next !in Run(guard, ttl, EMPTY, events).tokens
    ensures var store, issued := Run(guard, ttl, EMPTY, events), IssuedAt(guard, ttl, events, h);
            && (h in store.tokens <==> issued.Some?)
            && (Rotate(guard, store, ttl, t, h, next).1.Issued? <==>
                  && issued.Some? && store.tokens[h].revoked.None? && t <= issued.value + ttl.refresh
                  && (guard.Documented? || store.tokens[h].parent.None?))
  {
    RunsKeepExpiry(guard, ttl, events, h);
    RotateIssuesIff(guard, Run(guard, ttl, EMPTY, events), ttl, t, h, next);
    hide Run, IssuedAt, Rotate;
  }

  // ---- Devices ----------------------------------------------------------------------------------------

  /** The device of a user and fingerprint after a run: that of the first login with it; revoked if it was since. */
  ghost function DeviceAfter(guard: Guard, ttl: Ttl, events: seq<(nat, Event)>, user: nat, f: string): Option<Device> {
    if events == [] then None
    else
      var n := |events| - 1;
      var before := DeviceAfter(guard, ttl, events[..n], user, f);
      match events[n].1
      case Login(who, fingerprint, ids) =>
        if before.None? && who == user && fingerprint == Some(f) && IsFresh(Run(guard, ttl, EMPTY, events[..n]), ids)
        then Some(Device(ids.device, false)) else before
      case RevokeOneDevice(device, who) =>
        if before.Some? && before.value.id == device && who == user then Some(before.value.(revoked := true))
        else before
      case _ => before
  }

  ghost predicate HasDevice(store: Store, user: nat, f: string, device: Option<Device>) {
    ((user, f) in store.devices <==> device.Some?) && (device.Some? ==> store.devices[(user, f)] == device.value)
  }

  lemma OtherEventsKeepDevices(guard: Guard, ttl: Ttl, store: Store, now: nat, e: Event)
    requires Sound(store) && !e.Login? && !e.RevokeOneDevice?
    ensures Step(guard, ttl, store, now, e).devices == store.devices
  {
    hide RevokeSession, RevokeAllUserSessions, RevokeTokenFamily, OnlyRevokes, Untouched, Dead, Sound;
    match e
    case Refresh(presented, hash) =>
      if presented in store.tokens {
        RevokeFamilyKills(store, presented, "REUSE_DETECTED");
      }
    case Revoke(sid, reason) => RevokeSessionKills(store, sid, reason);
    case RevokeAll(user, except, reason) => RevokeAllKills(store, user, except, reason);
    case _ =>
  }

  lemma DeviceStep(guard: Guard, ttl: Ttl, store: Store, now: nat, e: Event, user: nat, f: string,
                   before: Option<Device>)
    requires HasDevice(store, user, f, before) && (e.Login? || e.RevokeOneDevice?)
    ensures var after := if e.Login? then
                           if before.None? && e.user == user && e.fingerprint == Some(f) && IsFresh(store, e.ids)
                           then Some(Device(e.ids.device, false)) else before
                         else if before.Some? && before.value.id == e.device && e.user == user then
                           Some(before.value.(revoked := true))
                         else before;
            HasDevice(Step(guard, ttl, store, now, e), user, f, after)
  {
    hide IsFresh, SessionsOfDevice;
  }

  /** Over every run the devices are those of the first logins with their fingerprints. */
  lemma {:induction false} DevicesAre(guard: Guard, ttl: Ttl, events: seq<(nat, Event)>, user: nat, f: string)
    ensures HasDevice(Run(guard, ttl, EMPTY, events), user, f, DeviceAfter(guard, ttl, events, user, f))
  {
    if events != [] {
      var n := |events| - 1;
      DevicesAre(guard, ttl, events[..n], user, f);
      ReachableIsSound(guard, ttl, events[..n]);
      var store := Run(guard, ttl, EMPTY, events[..n]);
      hide Sound, Step, IsFresh;
      if events[n].1.Login? || events[n].1.RevokeOneDevice? {
        DeviceStep(guard, ttl, store, events[n].0, events[n].1, user, f, DeviceAfter(guard, ttl, events[..n], user, f));
      } else {
        OtherEventsKeepDevices(guard, ttl, store, events[n].0, events[n].1);
      }
    }
  }

  /**
   * A login stores a session of the user, on the device that the fingerprint stands for: the one that a login with it
   * stored before, or else the new one.
   */
  lemma LoginCarriesDevice(guard: Guard, ttl: Ttl, events: seq<(nat, Event)>, now: nat, user: nat,
                           fingerprint: Option<string>, ids: Fresh)
    requires IsFresh(Run(guard, ttl, EMPTY, events), ids)
    ensures var after := Step(guard, ttl, Run(guard, ttl, EMPTY, events), now, Login(user, fingerprint, ids));
            && ids.session in after.sessions && ids.hash in after.tokens
            && after.sessions[ids.session].user == after.tokens[ids.hash].user == user
            && after.tokens[ids.hash].session == ids.session && after.tokens[ids.hash].family == ids.family
            && after.sessions[ids.session].device
               == (if fingerprint.None? then None
                   else
                     var known := DeviceAfter(guard, ttl, events, user, fingerprint.value);
                     Some(if known.Some? then known.value.id else ids.device))
  {
    if fingerprint.Some? {
      DevicesAre(guard, ttl, events, user, fingerprint.value);
    }
    hide Run, DeviceAfter, IsFresh;
  }

  // ---- Reasons -------------------------------------------------------------------------------------------

  /** The reason that an operation gives to the rows it revokes. */
  function ReasonOf(e: Event, outcome: Rotation): string {
    match e
    case Revoke(_, reason) => reason
    case RevokeAll(_, _, reason) => reason
    case RevokeOneDevice(_, _) => "device_revoked"
    case Refresh(_, _) => if outcome.Reused? then "REUSE_DETECTED" else "rotated"
    case Login(_, _, _) => ""
  }

  /** Every row that an operation revokes carries its reason; only reuse overwrites the reason of a revoked session. */
  lemma RevokedBecause(guard: Guard, ttl: Ttl, store: Store, now: nat, e: Event)
    ensures var after := Step(guard, ttl, store, now, e);
            var outcome := if e.Refresh? then Rotate(guard, store, ttl, now, e.presented, e.hash).1 else Invalid;
            && (forall sid | sid in store.sessions && sid in after.sessions && store.sessions[sid].revoked.None?
                             && after.sessions[sid].revoked.Some? ::
                  after.sessions[sid].revoked.value == ReasonOf(e, outcome))
            && (forall sid | sid in store.sessions && sid in after.sessions && store.sessions[sid].revoked.Some? ::
                  !(e.Login? && e.ids.session == sid) && !outcome.Reused? ==>
                      after.sessions[sid] == store.sessions[sid])
            && (forall h | h in store.tokens && h in after.tokens && Live(store.tokens[h]) && !Live(after.tokens[h]) ::
                  after.tokens[h].revoked.value == ReasonOf(e, outcome))
  {
    hide IsFresh, SessionsOfFamily, SessionsOfDevice, SessionsOfUser;
  }
}
