/** The session service over its tables, with transactions whose writes are lost when the body throws. */
module SessionTables {
  import opened Common
  import opened Sessions

  class SessionService {
    const guard: Guard
    const ttl: Ttl
    var sessions: map<nat, Session>
    var tokens: map<nat, Token>
    var devices: map<(nat, string), Device>

    function Committed(): Store
      reads this
    {
      Store(sessions, tokens, devices)
    }

    constructor (guard: Guard, ttl: Ttl)
      ensures Committed() == Store(map[], map[], map[]) && this.guard == guard && this.ttl == ttl
    {
      this.guard, this.ttl := guard, ttl;
      sessions, tokens, devices := map[], map[], map[];
    }

    method Commit(working: Store)
      modifies this
      ensures Committed() == working
    {
      sessions, tokens, devices := working.sessions, working.tokens, working.devices;
    }

    /** One transaction: the device, then the session, then its first refresh token; false when a key is taken. */
    method CreateSession(now: nat, user: nat, fingerprint: Option<string>, ids: Fresh) returns (ok: bool)
      modifies this
      ensures ok <==> ids.session !in old(sessions) && ids.hash !in old(tokens)
      ensures Committed() == if ok then Sessions.CreateSession(old(Committed()), ttl, now, user, fingerprint, ids)
                             else old(Committed())
    {
      var working := Committed();
      var device := None;
      if fingerprint.Some? {
        var key := (user, fingerprint.value);
        if key !in working.devices {
          working := working.(devices := working.devices[key := Device(ids.device, false)]);
        }
        device := Some(working.devices[key].id);
      }
      if ids.session in working.sessions {
        return false;
      }
      working := working.(sessions := working.sessions[ids.session :=
        Session(user, device, None, now + ttl.absolute, now + ttl.idle)]);
      if ids.hash in working.tokens {
        return false;
      }
      working := working.(tokens := working.tokens[ids.hash :=
        Token(user, ids.session, ids.family, None, now + ttl.refresh, None)]);
      Commit(working);
      return true;
    }

    /** Two statements through the pool: they are committed even when the caller's transaction is rolled back. */
    method RevokeTokenFamily(family: nat, reason: string)
      modifies this`tokens, this`sessions
      ensures Committed() == Sessions.RevokeTokenFamily(old(Committed()), family, reason)
    {
      tokens := KillFamily(Committed(), family, reason).tokens;
      sessions := OverwriteSessions(Committed(), SessionsOfFamily(Committed(), family), reason).sessions;
    }

    /** One transaction on a working copy; every outcome but Issued throws, and the working copy is dropped. */
    method RotateRefreshToken(now: nat, presented: nat, hash: nat) returns (outcome: Rotation)
      modifies this
      ensures (Committed(), outcome) == Rotate(guard, old(Committed()), ttl, now, presented, hash)
    {
      hide Sessions.RevokeTokenFamily;
      var working := Committed();
      if presented !in working.tokens {
        return Invalid;
      }
      var record := working.tokens[presented];
      if record.revoked.Some? || (guard.Written? && record.parent.Some?) {
        RevokeTokenFamily(record.family, "REUSE_DETECTED");
        return Reused;
      }
      if record.expiresAt < now {
        working := working.(tokens := working.tokens[presented := record.(revoked := Some("expired"))]);
        return Expired;
      }
      if hash in working.tokens {
        return Failed;
      }
      working := working.(tokens := working.tokens[hash :=
        Token(record.user, record.session, record.family, Some(presented), now + ttl.refresh, None)]);
      working := working.(tokens := working.tokens[presented := record.(revoked := Some("rotated"))]);
      working := working.(sessions := map sid | sid in working.sessions ::
        if sid == record.session && working.sessions[sid].revoked.None? then
          working.sessions[sid].(idleExpiresAt := now + ttl.idle)
        else working.sessions[sid]);
      Commit(working);
      return Issued(hash, record.user, record.session);
    }

    method RevokeSession(sid: nat, reason: string)
      modifies this`tokens, this`sessions
      ensures Committed() == Sessions.RevokeSession(old(Committed()), sid, reason)
    {
      if sid in sessions && sessions[sid].revoked.None? {
        sessions := sessions[sid := sessions[sid].(revoked := Some(reason))];
      }
      tokens := KillTokens(Committed(), {sid}, reason).tokens;
      assert sessions == MarkSessions(old(Committed()), {sid}, reason).sessions;
    }

    method LogoutSession(sid: nat)
      modifies this`tokens, this`sessions
      ensures Committed() == Sessions.RevokeSession(old(Committed()), sid, "logout")
    {
      RevokeSession(sid, "logout");
    }

    /** The second statement is skipped when the first one revoked nothing. */
    method RevokeAllUserSessions(user: nat, reason: string, except: Option<nat>) returns (revoked: nat)
      modifies this`tokens, this`sessions
      ensures Committed() == Sessions.RevokeAllUserSessions(old(Committed()), user, except, reason)
      ensures revoked == |SessionsOfUser(old(Committed()), user, except)|
    {
      var sids := SessionsOfUser(Committed(), user, except);
      sessions := MarkSessions(Committed(), sids, reason).sessions;
      if |sids| > 0 {
        tokens := KillTokens(Committed(), sids, reason).tokens;
      } else {
        assert KillTokens(Committed(), sids, reason).tokens == tokens;
      }
      return |sids|;
    }

    method RevokeDevice(device: nat, user: nat)
      modifies this
      ensures Committed() == Sessions.RevokeDevice(old(Committed()), device, user)
    {
      hide SessionsOfDevice, MarkSessions, KillTokens, MarkDevice;
      var store := MarkDevice(Committed(), device, user);
      Commit(store);
      store := MarkSessions(store, SessionsOfDevice(store, device), "device_revoked");
      Commit(store);
      store := KillTokens(store, SessionsOfDevice(store, device), "device_revoked");
      Commit(store);
      DeviceSessionsStay(old(Committed()), device, user);
    }
  }

  lemma DeviceSessionsStay(store: Store, device: nat, user: nat)
    ensures SessionsOfDevice(MarkDevice(store, device, user), device) == SessionsOfDevice(store, device)
  {
  }
}
