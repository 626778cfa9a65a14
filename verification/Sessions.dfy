/**
 * Sessions, devices and refresh-token families: the tables, and what each statement and each operation does to them.
 */
module Sessions {
  import opened Common

  datatype Session = Session(user: nat, device: Option<nat>, revoked: Option<string>, expiresAt: nat,
                             idleExpiresAt: nat)

  /** A refresh token, stored under its hash; `parent` is the hash of the token it was rotated from. */
  datatype Token = Token(user: nat, session: nat, family: nat, parent: Option<nat>, expiresAt: nat,
                         revoked: Option<string>)

  /** A device, stored under its user and fingerprint. */
  datatype Device = Device(id: nat, revoked: bool)

  datatype Store = Store(sessions: map<nat, Session>, tokens: map<nat, Token>, devices: map<(nat, string), Device>)

  datatype Ttl = Ttl(absolute: nat, idle: nat, refresh: nat)

  /** Which tokens count as reused: revoked or rotated from another one, as written; or revoked only, as documented. */
  datatype Guard = Written | Documented

  predicate Live(t: Token) {
    t.revoked.None?
  }

  /** Not revoked, not expired, not idle for too long. */
  predicate SessionUsable(s: Session, now: nat) {
    s.revoked.None? && !(s.expiresAt < now) && !(s.idleExpiresAt < now)
  }

  // ---- Single statements ----------------------------------------------------------------

  /** UPDATE sessions ... WHERE the id is one of `sids` AND revoked_at IS NULL. */
  function MarkSessions(store: Store, sids: set<nat>, reason: string): Store {
    store.(sessions := map sid | sid in store.sessions ::
      if sid in sids && store.sessions[sid].revoked.None? then store.sessions[sid].(revoked := Some(reason))
      else store.sessions[sid])
  }

  /** UPDATE refresh_tokens ... WHERE the session is one of `sids` AND revoked_at IS NULL. */
  function KillTokens(store: Store, sids: set<nat>, reason: string): Store {
    store.(tokens := map h | h in store.tokens ::
      if store.tokens[h].session in sids && Live(store.tokens[h]) then store.tokens[h].(revoked := Some(reason))
      else store.tokens[h])
  }

  /** UPDATE refresh_tokens ... WHERE the family matches AND revoked_at IS NULL. */
  function KillFamily(store: Store, family: nat, reason: string): Store {
    store.(tokens := map h | h in store.tokens ::
      if store.tokens[h].family == family && Live(store.tokens[h]) then store.tokens[h].(revoked := Some(reason))
      else store.tokens[h])
  }

  function SessionsOfFamily(store: Store, family: nat): set<nat> {
    set h | h in store.tokens && store.tokens[h].family == family :: store.tokens[h].session
  }

  /** UPDATE sessions ... WHERE the id is one of `sids`, revoked or not: an earlier reason is overwritten. */
  function OverwriteSessions(store: Store, sids: set<nat>, reason: string): Store {
    store.(sessions := map sid | sid in store.sessions ::
      if sid in sids then store.sessions[sid].(revoked := Some(reason)) else store.sessions[sid])
  }

  /** The live sessions of a user, but for one that may be excepted. */
  function SessionsOfUser(store: Store, user: nat, except: Option<nat>): set<nat> {
    set sid | sid in store.sessions && store.sessions[sid].user == user && store.sessions[sid].revoked.None?
              && except != Some(sid)
  }

  function SessionsOfDevice(store: Store, device: nat): set<nat> {
    set sid | sid in store.sessions && store.sessions[sid].device == Some(device)
  }

  function MarkDevice(store: Store, device: nat, user: nat): Store {
    store.(devices := map k | k in store.devices ::
      if store.devices[k].id == device && k.0 == user then store.devices[k].(revoked := true) else store.devices[k])
  }

  // ---- Operations ---------------------------------------------------------------------------

  function RevokeTokenFamily(store: Store, family: nat, reason: string): Store {
    var killed := KillFamily(store, family, reason);
    OverwriteSessions(killed, SessionsOfFamily(killed, family), reason)
  }

  function RevokeSession(store: Store, sid: nat, reason: string): Store {
    KillTokens(MarkSessions(store, {sid}, reason), {sid}, reason)
  }

  function RevokeAllUserSessions(store: Store, user: nat, except: Option<nat>, reason: string): Store {
    var sids := SessionsOfUser(store, user, except);
    KillTokens(MarkSessions(store, sids, reason), sids, reason)
  }

  function RevokeDevice(store: Store, device: nat, user: nat): Store {
    var marked := MarkSessions(MarkDevice(store, device, user), SessionsOfDevice(store, device), "device_revoked");
    KillTokens(marked, SessionsOfDevice(marked, device), "device_revoked")
  }

  /** The random values one login draws. */
  datatype Fresh = Fresh(session: nat, hash: nat, family: nat, device: nat)

  /** The primary keys are unused; the family identifier, which has no constraint, is new as well. */
  ghost predicate IsFresh(store: Store, ids: Fresh) {
    && ids.session !in store.sessions && ids.hash !in store.tokens
    && forall h :: h in store.tokens ==> store.tokens[h].family != ids.family
  }

  function DeviceOf(store: Store, user: nat, fingerprint: Option<string>, id: nat): Option<nat> {
    match fingerprint
    case None => None
    case Some(f) => Some(if (user, f) in store.devices then store.devices[(user, f)].id else id)
  }

  function CreateSession(store: Store, ttl: Ttl, now: nat, user: nat, fingerprint: Option<string>, ids: Fresh): Store {
    var device := DeviceOf(store, user, fingerprint, ids.device);
    Store(store.sessions[ids.session := Session(user, device, None, now + ttl.absolute, now + ttl.idle)],
          store.tokens[ids.hash := Token(user, ids.session, ids.family, None, now + ttl.refresh, None)],
          if fingerprint.None? || (user, fingerprint.value) in store.devices then store.devices
          else store.devices[(user, fingerprint.value) := Device(ids.device, false)])
  }

  datatype Rotation = Issued(hash: nat, user: nat, session: nat) | Invalid | Reused | Expired | Failed

  predicate CountsAsReused(guard: Guard, t: Token) {
    !Live(t) || (guard.Written? && t.parent.Some?)
  }

  /** The rows a successful rotation leaves: the successor, the presented token rotated, the session touched. */
  function Rotated(store: Store, ttl: Ttl, now: nat, presented: nat, hash: nat): Store
    requires presented in store.tokens
  {
    var t := store.tokens[presented];
    Store(map sid | sid in store.sessions ::
            if sid == t.session && store.sessions[sid].revoked.None? then
              store.sessions[sid].(idleExpiresAt := now + ttl.idle)
            else store.sessions[sid],
          store.tokens[hash := t.(parent := Some(presented), expiresAt := now + ttl.refresh, revoked := None)]
                      [presented := t.(revoked := Some("rotated"))],
          store.devices)
  }

  /** One refresh. A hash that is already taken violates a unique constraint and rolls everything back. */
  function Rotate(guard: Guard, store: Store, ttl: Ttl, now: nat, presented: nat, hash: nat): (Store, Rotation) {
    if presented !in store.tokens then (store, Invalid)
    else
      var t := store.tokens[presented];
      if CountsAsReused(guard, t) then (RevokeTokenFamily(store, t.family, "REUSE_DETECTED"), Reused)
      else if t.expiresAt < now then (store, Expired)
      else if hash in store.tokens then (store, Failed)
      else (Rotated(store, ttl, now, presented, hash), Issued(hash, t.user, t.session))
  }
}
