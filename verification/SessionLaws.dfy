/** What every operation keeps about token families, and what a refresh can and cannot do. */
module SessionLaws {
  import opened Common
  import opened Sessions

  // ---- The invariant --------------------------------------------------------------------------

  /** A token belongs to a stored session of the same user. */
  ghost predicate Owned(store: Store) {
    forall h :: h in store.tokens ==>
      store.tokens[h].session in store.sessions && store.sessions[store.tokens[h].session].user == store.tokens[h].user
  }

  /** A family belongs to one session, and a session has one family. */
  ghost predicate OneFamilyPerSession(store: Store) {
    forall a, b :: a in store.tokens && b in store.tokens ==>
      (store.tokens[a].family == store.tokens[b].family <==> store.tokens[a].session == store.tokens[b].session)
  }

  ghost predicate OneLivePerFamily(store: Store) {
    forall a, b | a in store.tokens && b in store.tokens && store.tokens[a].family == store.tokens[b].family
                  && Live(store.tokens[a]) && Live(store.tokens[b])
      :: a == b
  }

  /** A successor stays in the family of its predecessor, which is revoked. */
  ghost predicate Chained(store: Store) {
    forall h :: h in store.tokens && store.tokens[h].parent.Some? ==>
      var p := store.tokens[h].parent.value;
      p != h && p in store.tokens && !Live(store.tokens[p]) && store.tokens[p].family == store.tokens[h].family
  }

  ghost predicate OneSuccessor(store: Store) {
    forall a, b | a in store.tokens && b in store.tokens && store.tokens[a].parent.Some?
                  && store.tokens[a].parent == store.tokens[b].parent
      :: a == b
  }

  ghost predicate OneRootPerFamily(store: Store) {
    forall a, b | a in store.tokens && b in store.tokens && store.tokens[a].family == store.tokens[b].family
                  && store.tokens[a].parent.None? && store.tokens[b].parent.None?
      :: a == b
  }

  /** What holds between any two statements. */
  ghost predicate Linked(store: Store) {
    && Owned(store) && OneFamilyPerSession(store) && OneLivePerFamily(store) && Chained(store) && OneSuccessor(store)
    && OneRootPerFamily(store)
  }

  /** What holds between operations as well: a live token means a live session. */
  ghost predicate LiveTokenLiveSession(store: Store) {
    forall h :: h in store.tokens && Live(store.tokens[h]) && store.tokens[h].session in store.sessions ==>
      store.sessions[store.tokens[h].session].revoked.None?
  }

  ghost predicate Sound(store: Store) {
    Linked(store) && LiveTokenLiveSession(store)
  }

  // ---- Statements ---------------------------------------------------------------------------------

  /** `after` differs from `before` by revocations only. */
  ghost predicate OnlyRevokes(before: Store, after: Store) {
    && after.sessions.Keys == before.sessions.Keys && after.tokens.Keys == before.tokens.Keys
    && (forall sid :: sid in before.sessions ==>
          && after.sessions[sid] == before.sessions[sid].(revoked := after.sessions[sid].revoked)
          && (before.sessions[sid].revoked.Some? ==> after.sessions[sid].revoked.Some?))
    && (forall h :: h in before.tokens ==>
          && after.tokens[h] == before.tokens[h].(revoked := after.tokens[h].revoked)
          && (!Live(before.tokens[h]) ==> after.tokens[h] == before.tokens[h]))
  }

  lemma RevokingKeepsLinked(before: Store, after: Store)
    requires Linked(before) && OnlyRevokes(before, after)
    ensures Linked(after)
  {
    assert forall h :: h in after.tokens ==> h in before.tokens;
    assert forall sid :: sid in after.sessions <==> sid in before.sessions;
  }

  lemma OnlyRevokesTrans(a: Store, b: Store, c: Store)
    requires OnlyRevokes(a, b) && OnlyRevokes(b, c)
    ensures OnlyRevokes(a, c)
  {
    assert forall h :: h in a.tokens ==> h in b.tokens;
    assert forall sid :: sid in a.sessions ==> sid in b.sessions;
  }

  lemma MarkingOnlyRevokes(store: Store, sids: set<nat>, reason: string)
    ensures OnlyRevokes(store, MarkSessions(store, sids, reason))
  {
  }

  lemma OverwritingOnlyRevokes(store: Store, sids: set<nat>, reason: string)
    ensures OnlyRevokes(store, OverwriteSessions(store, sids, reason))
  {
  }

  lemma KillingOnlyRevokes(store: Store, sids: set<nat>, reason: string)
    ensures OnlyRevokes(store, KillTokens(store, sids, reason))
  {
  }

  lemma KillingFamilyOnlyRevokes(store: Store, family: nat, reason: string)
    ensures OnlyRevokes(store, KillFamily(store, family, reason))
  {
  }

  lemma MarkingDeviceOnlyRevokes(store: Store, device: nat, user: nat)
    ensures OnlyRevokes(store, MarkDevice(store, device, user))
  {
  }

  // ---- Dead sessions ---------------------------------------------------------------------------------

  /** Revoked, and without a live token. */
  ghost predicate Dead(store: Store, sid: nat) {
    && sid in store.sessions && store.sessions[sid].revoked.Some?
    && forall h :: h in store.tokens && store.tokens[h].session == sid ==> !Live(store.tokens[h])
  }

  lemma RevokingKeepsDead(before: Store, after: Store, sid: nat)
    requires OnlyRevokes(before, after) && Dead(before, sid)
    ensures Dead(after, sid)
  {
    assert forall h :: h in after.tokens ==> h in before.tokens;
  }

  /** Marking sessions and then killing their tokens leaves each of them dead. */
  lemma MarkedAndKilledIsDead(store: Store, sids: set<nat>, reason: string, sid: nat)
    requires sid in sids && sid in store.sessions && store.sessions[sid].revoked.Some?
    ensures Dead(KillTokens(store, sids, reason), sid)
  {
  }

  /** Marking sessions and killing their tokens: those sessions are dead, everything else is as it was. */
  lemma MarkThenKill(store: Store, sids: set<nat>, reason: string)
    requires Sound(store)
    ensures var after := KillTokens(MarkSessions(store, sids, reason), sids, reason);
            && Sound(after) && OnlyRevokes(store, after)
            && (forall sid :: sid in sids && sid in store.sessions ==> Dead(after, sid))
            && Untouched(store, after, sids)
  {
    var marked := MarkSessions(store, sids, reason);
    var after := KillTokens(marked, sids, reason);
    MarkingOnlyRevokes(store, sids, reason);
    KillingOnlyRevokes(marked, sids, reason);
    OnlyRevokesTrans(store, marked, after);
    RevokingKeepsLinked(store, after);
    LiveAfterKill(store, sids, reason);
    UntouchedByKill(store, sids, reason);
    assert forall sid :: sid in sids && sid in store.sessions ==>
        sid in marked.sessions && marked.sessions[sid].revoked.Some?;
    hide Linked, OnlyRevokes, Dead, MarkSessions, KillTokens, Untouched, LiveTokenLiveSession;
    forall sid | sid in sids && sid in store.sessions
      ensures Dead(after, sid)
    {
      MarkedAndKilledIsDead(marked, sids, reason, sid);
    }
  }

  lemma LiveAfterKill(store: Store, sids: set<nat>, reason: string)
    requires LiveTokenLiveSession(store)
    ensures LiveTokenLiveSession(KillTokens(MarkSessions(store, sids, reason), sids, reason))
  {
  }

  lemma UntouchedByKill(store: Store, sids: set<nat>, reason: string)
    ensures Untouched(store, KillTokens(MarkSessions(store, sids, reason), sids, reason), sids)
  {
  }

  /** Every session outside `sids`, and every token of one, is as it was. */
  ghost predicate Untouched(before: Store, after: Store, sids: set<nat>) {
    && (forall sid :: sid in before.sessions && sid !in sids ==>
          sid in after.sessions && after.sessions[sid] == before.sessions[sid])
    && (forall h :: h in before.tokens && before.tokens[h].session !in sids ==>
          h in after.tokens && after.tokens[h] == before.tokens[h])
  }

  // ---- The five ways to revoke ----------------------------------------------------------------------

  lemma RevokeSessionKills(store: Store, sid: nat, reason: string)
    requires Sound(store)
    ensures var after := RevokeSession(store, sid, reason);
            && Sound(after) && OnlyRevokes(store, after) && Untouched(store, after, {sid})
            && (sid in store.sessions ==> Dead(after, sid)) && after.devices == store.devices
  {
    MarkThenKill(store, {sid}, reason);
  }

  /** In a sound store every revoked session is dead already. */
  lemma RevokedIsDead(store: Store, sid: nat)
    requires Sound(store) && sid in store.sessions && store.sessions[sid].revoked.Some?
    ensures Dead(store, sid)
  {
  }

  /** All sessions of the user are dead afterwards, those revoked earlier included, but for the excepted one. */
  lemma RevokeAllKills(store: Store, user: nat, except: Option<nat>, reason: string)
    requires Sound(store)
    ensures var after := RevokeAllUserSessions(store, user, except, reason);
            && Sound(after) && OnlyRevokes(store, after) && after.devices == store.devices
            && Untouched(store, after, SessionsOfUser(store, user, except))
            && forall sid :: sid in store.sessions && store.sessions[sid].user == user && except != Some(sid) ==>
                 Dead(after, sid)
  {
    var sids := SessionsOfUser(store, user, except);
    var after := RevokeAllUserSessions(store, user, except, reason);
    MarkThenKill(store, sids, reason);
    hide Sound, OnlyRevokes, KillTokens, MarkSessions, Untouched, Dead;
    forall sid | sid in store.sessions && store.sessions[sid].user == user && except != Some(sid)
      ensures Dead(after, sid)
    {
      if sid !in sids {
        RevokedIsDead(store, sid);
        RevokingKeepsDead(store, after, sid);
      }
    }
  }

  lemma RevokeDeviceKills(store: Store, device: nat, user: nat)
    requires Sound(store)
    ensures var after := RevokeDevice(store, device, user);
            && Sound(after) && OnlyRevokes(store, after) && Untouched(store, after, SessionsOfDevice(store, device))
            && after.devices == MarkDevice(store, device, user).devices
            && forall sid :: sid in store.sessions && store.sessions[sid].device == Some(device) ==> Dead(after, sid)
  {
    var sids := SessionsOfDevice(store, device);
    var marked := MarkDevice(store, device, user);
    assert Sound(marked) by {
      MarkingDeviceOnlyRevokes(store, device, user);
      RevokingKeepsLinked(store, marked);
    }
    assert SessionsOfDevice(MarkSessions(marked, sids, "device_revoked"), device) == sids;
    MarkThenKill(marked, sids, "device_revoked");
    hide Sound, KillTokens, MarkSessions, Untouched, Dead;
  }

  /** In a linked store a family with a token has exactly that token's session. */
  lemma FamilySession(store: Store, h: nat)
    requires Linked(store) && h in store.tokens
    ensures SessionsOfFamily(store, store.tokens[h].family) == {store.tokens[h].session}
  {
    assert store.tokens[h].session in SessionsOfFamily(store, store.tokens[h].family);
  }

  lemma RevokeFamilyKills(store: Store, h: nat, reason: string)
    requires Sound(store) && h in store.tokens
    ensures var t := store.tokens[h];
            var after := RevokeTokenFamily(store, t.family, reason);
            && Sound(after) && OnlyRevokes(store, after) && Untouched(store, after, {t.session})
            && Dead(after, t.session) && after.devices == store.devices
            && forall g :: g in store.tokens && store.tokens[g].family == t.family ==> !Live(after.tokens[g])
  {
    var t := store.tokens[h];
    var killed := KillFamily(store, t.family, reason);
    var after := RevokeTokenFamily(store, t.family, reason);
    KillingFamilyOnlyRevokes(store, t.family, reason);
    RevokingKeepsLinked(store, killed);
    FamilySession(killed, h);
    OverwritingOnlyRevokes(killed, {t.session}, reason);
    OnlyRevokesTrans(store, killed, after);
    RevokingKeepsLinked(store, after);
    FamilyAfterKill(store, h, reason);
  }

  lemma FamilyAfterKill(store: Store, h: nat, reason: string)
    requires OneFamilyPerSession(store) && Owned(store) && LiveTokenLiveSession(store) && h in store.tokens
    ensures var t := store.tokens[h];
            var after := OverwriteSessions(KillFamily(store, t.family, reason), {t.session}, reason);
            && LiveTokenLiveSession(after) && Untouched(store, after, {t.session})
            && Dead(after, t.session) && after.devices == store.devices
            && forall g :: g in store.tokens && store.tokens[g].family == t.family ==> !Live(after.tokens[g])
  {
    var t := store.tokens[h];
    assert forall g :: g in store.tokens ==>
        (store.tokens[g].family == t.family <==> store.tokens[g].session == t.session);
    hide OneFamilyPerSession;
  }

  // ---- Signing in and refreshing ------------------------------------------------------------------------

  /** `after` has one more token, and no session or token of `before` is gone; the new token has a new family. */
  ghost predicate Signed(before: Store, after: Store, hash: nat) {
    && hash in after.tokens && hash !in before.tokens
    && (forall h :: h in after.tokens <==> h in before.tokens || h == hash)
    && (forall h :: h in before.tokens ==> after.tokens[h] == before.tokens[h])
    && (forall sid :: sid in before.sessions ==> sid in after.sessions && after.sessions[sid] == before.sessions[sid])
    && var t := after.tokens[hash];
       && t.parent.None? && t.session !in before.sessions && t.session in after.sessions
       && after.sessions[t.session].user == t.user && after.sessions[t.session].revoked.None?
       && forall h :: h in before.tokens ==> before.tokens[h].family != t.family
  }

  lemma CreateSessionSigns(store: Store, ttl: Ttl, now: nat, user: nat, fingerprint: Option<string>, ids: Fresh)
    requires IsFresh(store, ids)
    ensures Signed(store, CreateSession(store, ttl, now, user, fingerprint, ids), ids.hash)
  {
  }

  lemma SigningKeepsFamilies(before: Store, after: Store, hash: nat)
    requires Linked(before) && Signed(before, after, hash)
    ensures Owned(after) && OneFamilyPerSession(after)
    ensures LiveTokenLiveSession(before) ==> LiveTokenLiveSession(after)
  {
    hide OneLivePerFamily, OneSuccessor, OneRootPerFamily, Chained;
    assert forall h :: h in before.tokens ==> before.tokens[h].session in before.sessions;
  }

  lemma SigningKeepsChains(before: Store, after: Store, hash: nat)
    requires Linked(before) && Signed(before, after, hash)
    ensures OneLivePerFamily(after) && Chained(after) && OneSuccessor(after) && OneRootPerFamily(after)
  {
    hide OneFamilyPerSession, Owned;
  }

  lemma CreateSessionKeepsLinked(store: Store, ttl: Ttl, now: nat, user: nat, fingerprint: Option<string>, ids: Fresh)
    requires Linked(store) && IsFresh(store, ids)
    ensures Linked(CreateSession(store, ttl, now, user, fingerprint, ids))
    ensures Sound(store) ==> Sound(CreateSession(store, ttl, now, user, fingerprint, ids))
  {
    var after := CreateSession(store, ttl, now, user, fingerprint, ids);
    CreateSessionSigns(store, ttl, now, user, fingerprint, ids);
    SigningKeepsFamilies(store, after, ids.hash);
    SigningKeepsChains(store, after, ids.hash);
    hide CreateSession, Signed, Owned, OneFamilyPerSession, OneLivePerFamily, Chained, OneSuccessor, OneRootPerFamily;
  }

  /**
   * When a refresh issues a new token: a known, unrevoked, unexpired token, and for the guard as written a first one.
   */
  lemma RotateIssuesIff(guard: Guard, store: Store, ttl: Ttl, now: nat, presented: nat, hash: nat)
    requires hash !in store.tokens
    ensures Rotate(guard, store, ttl, now, presented, hash).1.Issued?
            <==> presented in store.tokens && Live(store.tokens[presented]) && now <= store.tokens[presented].expiresAt
                 && (guard.Documented? || store.tokens[presented].parent.None?)
  {
  }

  /** `after` has the live token `presented` of `before` spent, and its successor `hash` in its place. */
  ghost predicate HandedOver(before: Store, after: Store, presented: nat, hash: nat) {
    && presented in before.tokens && Live(before.tokens[presented]) && hash !in before.tokens && presented != hash
    && (forall h :: h in after.tokens <==> h in before.tokens || h == hash)
    && (forall h :: h in before.tokens && h != presented ==> after.tokens[h] == before.tokens[h])
    && var t := before.tokens[presented];
       && after.tokens[presented] == t.(revoked := Some("rotated"))
       && after.tokens[hash].user == t.user && after.tokens[hash].session == t.session
       && after.tokens[hash].family == t.family && after.tokens[hash].parent == Some(presented)
            && Live(after.tokens[hash])
       && after.sessions.Keys == before.sessions.Keys
       && forall sid :: sid in before.sessions ==>
            && after.sessions[sid].user == before.sessions[sid].user
            && after.sessions[sid].revoked == before.sessions[sid].revoked
  }

  lemma RotatedHandsOver(store: Store, ttl: Ttl, now: nat, presented: nat, hash: nat)
    requires presented in store.tokens && Live(store.tokens[presented]) && hash !in store.tokens
    ensures HandedOver(store, Rotated(store, ttl, now, presented, hash), presented, hash)
  {
  }

  lemma HandingOverKeepsFamilies(before: Store, after: Store, presented: nat, hash: nat)
    requires Linked(before) && HandedOver(before, after, presented, hash)
    ensures Owned(after) && OneFamilyPerSession(after)
    ensures LiveTokenLiveSession(before) ==> LiveTokenLiveSession(after)
  {
    hide OneLivePerFamily, OneSuccessor, OneRootPerFamily, Chained;
    assert forall sid :: sid in after.sessions <==> sid in before.sessions;
  }

  lemma HandingOverKeepsChains(before: Store, after: Store, presented: nat, hash: nat)
    requires Linked(before) && HandedOver(before, after, presented, hash)
    ensures OneLivePerFamily(after) && Chained(after) && OneSuccessor(after) && OneRootPerFamily(after)
  {
    hide OneFamilyPerSession, Owned;
  }

  lemma RotatedKeepsLinked(store: Store, ttl: Ttl, now: nat, presented: nat, hash: nat)
    requires Linked(store) && presented in store.tokens && Live(store.tokens[presented]) && hash !in store.tokens
    ensures Linked(Rotated(store, ttl, now, presented, hash))
    ensures Sound(store) ==> Sound(Rotated(store, ttl, now, presented, hash))
  {
    var after := Rotated(store, ttl, now, presented, hash);
    RotatedHandsOver(store, ttl, now, presented, hash);
    HandingOverKeepsFamilies(store, after, presented, hash);
    HandingOverKeepsChains(store, after, presented, hash);
    hide Rotated, HandedOver, Owned, OneFamilyPerSession, OneLivePerFamily, Chained, OneSuccessor, OneRootPerFamily;
  }

  lemma RotateKeepsSound(guard: Guard, store: Store, ttl: Ttl, now: nat, presented: nat, hash: nat)
    requires Sound(store)
    ensures Sound(Rotate(guard, store, ttl, now, presented, hash).0)
  {
    assert Linked(store);
    hide Sound, Linked, Rotated, OnlyRevokes, Untouched, Dead;
    if presented in store.tokens {
      var t := store.tokens[presented];
      if CountsAsReused(guard, t) {
        RevokeFamilyKills(store, presented, "REUSE_DETECTED");
      } else if hash !in store.tokens {
        RotatedKeepsLinked(store, ttl, now, presented, hash);
      }
    }
  }

  /** Reuse: the whole family and its session are revoked for good, and nothing else changes. */
  lemma ReuseRevokesFamily(guard: Guard, store: Store, ttl: Ttl, now: nat, presented: nat, hash: nat)
    requires Sound(store) && presented in store.tokens && CountsAsReused(guard, store.tokens[presented])
    ensures var (after, outcome) := Rotate(guard, store, ttl, now, presented, hash);
            var t := store.tokens[presented];
            && outcome.Reused? && Dead(after, t.session) && Untouched(store, after, {t.session})
            && forall h :: h in store.tokens && store.tokens[h].family == t.family ==> !Live(after.tokens[h])
  {
    RevokeFamilyKills(store, presented, "REUSE_DETECTED");
  }

  /** After a refresh the new token is the one live token of its session, and the presented one is spent. */
  lemma RotationHandsOver(guard: Guard, store: Store, ttl: Ttl, now: nat, presented: nat, hash: nat)
    requires Sound(store) && Rotate(guard, store, ttl, now, presented, hash).1.Issued?
    ensures var (after, outcome) := Rotate(guard, store, ttl, now, presented, hash);
            var t := store.tokens[presented];
            && outcome == Issued(hash, t.user, t.session) && hash != presented
            && hash !in store.tokens && hash in after.tokens
            && (forall h :: h in after.tokens && after.tokens[h].session == t.session ==>
                (Live(after.tokens[h]) <==> h == hash))
            && (forall h :: h in store.tokens && h != presented ==>
                h in after.tokens && after.tokens[h] == store.tokens[h])
            && (forall sid :: sid in store.sessions && sid != t.session ==>
                  sid in after.sessions && after.sessions[sid] == store.sessions[sid])
            && Rotate(guard, after, ttl, now, presented, hash).1.Reused?
  {
    assert OneFamilyPerSession(store) && OneLivePerFamily(store);
    hide Sound;
  }

  // ---- How the tables evolve ---------------------------------------------------------------------------------

  /**
   * Nothing is unrevoked, deleted or moved, and a new token belongs to a new session and family or succeeds a live
   * token of its own session and family.
   */
  ghost predicate Evolves(before: Store, after: Store) {
    && (forall sid :: sid in before.sessions ==>
          && sid in after.sessions && after.sessions[sid].user == before.sessions[sid].user
          && after.sessions[sid].device == before.sessions[sid].device
          && (before.sessions[sid].revoked.Some? ==> after.sessions[sid].revoked.Some?))
    && (forall h :: h in before.tokens ==>
          && h in after.tokens && SameToken(before.tokens[h], after.tokens[h])
          && (!Live(before.tokens[h]) ==> !Live(after.tokens[h])))
    && (forall h :: h in after.tokens && h !in before.tokens ==> NewOrSuccessor(before, after.tokens[h]))
  }

  predicate SameToken(a: Token, b: Token) {
    a.user == b.user && a.session == b.session && a.family == b.family && a.parent == b.parent
  }

  ghost predicate NewOrSuccessor(before: Store, t: Token) {
    || (t.session !in before.sessions && forall g :: g in before.tokens ==> before.tokens[g].family != t.family)
    || (exists g :: g in before.tokens && Live(before.tokens[g]) && before.tokens[g].session == t.session
                    && before.tokens[g].family == t.family)
  }

  lemma RevokingEvolves(before: Store, after: Store)
    requires OnlyRevokes(before, after)
    ensures Evolves(before, after)
  {
  }

  lemma CreateSessionEvolves(store: Store, ttl: Ttl, now: nat, user: nat, fingerprint: Option<string>, ids: Fresh)
    requires IsFresh(store, ids)
    ensures Evolves(store, CreateSession(store, ttl, now, user, fingerprint, ids))
  {
  }

  lemma RotatedEvolves(store: Store, ttl: Ttl, now: nat, presented: nat, hash: nat)
    requires presented in store.tokens && Live(store.tokens[presented]) && hash !in store.tokens
    ensures Evolves(store, Rotated(store, ttl, now, presented, hash))
  {
    var after := Rotated(store, ttl, now, presented, hash);
    assert NewOrSuccessor(store, after.tokens[hash]);
    hide NewOrSuccessor;
  }

  lemma EvolvingKeepsDead(before: Store, after: Store, sid: nat)
    requires Evolves(before, after) && Dead(before, sid)
    ensures Dead(after, sid)
  {
  }

  /** A session that is dead is unusable at any time, and none of its tokens is ever refreshed. */
  lemma DeadIsFinal(guard: Guard, store: Store, ttl: Ttl, now: nat, sid: nat, presented: nat, hash: nat)
    requires Dead(store, sid)
    ensures !SessionUsable(store.sessions[sid], now)
    ensures presented in store.tokens && store.tokens[presented].session == sid ==>
              Rotate(guard, store, ttl, now, presented, hash).1.Reused?
  {
  }

  // ---- Runs --------------------------------------------------------------------------------------------------

  datatype Event =
    | Login(user: nat, fingerprint: Option<string>, ids: Fresh)
    | Refresh(presented: nat, hash: nat)
    | Revoke(sid: nat, reason: string)
    | RevokeAll(user: nat, except: Option<nat>, reason: string)
    | RevokeOneDevice(device: nat, user: nat)

  /** One operation at time `now`; a login whose identifiers are taken stores nothing. */
  ghost function Step(guard: Guard, ttl: Ttl, store: Store, now: nat, e: Event): Store {
    match e
    case Login(user, fingerprint, ids) =>
      if IsFresh(store, ids) then CreateSession(store, ttl, now, user, fingerprint, ids) else store
    case Refresh(presented, hash) => Rotate(guard, store, ttl, now, presented, hash).0
    case Revoke(sid, reason) => RevokeSession(store, sid, reason)
    case RevokeAll(user, except, reason) => RevokeAllUserSessions(store, user, except, reason)
    case RevokeOneDevice(device, user) => RevokeDevice(store, device, user)
  }

  ghost function Run(guard: Guard, ttl: Ttl, store: Store, events: seq<(nat, Event)>): Store {
    if events == [] then store
    else
      var last := events[|events| - 1];
      Step(guard, ttl, Run(guard, ttl, store, events[..|events| - 1]), last.0, last.1)
  }

  lemma StepKeepsSound(guard: Guard, ttl: Ttl, store: Store, now: nat, e: Event)
    requires Sound(store)
    ensures Sound(Step(guard, ttl, store, now, e))
  {
    assert Linked(store);
    hide Linked, Sound, Rotate, CreateSession, RevokeSession, RevokeAllUserSessions, RevokeDevice,
         OnlyRevokes, Untouched, Dead, IsFresh;
    match e
    case Login(user, fingerprint, ids) =>
      if IsFresh(store, ids) {
        CreateSessionKeepsLinked(store, ttl, now, user, fingerprint, ids);
      }
    case Refresh(presented, hash) => RotateKeepsSound(guard, store, ttl, now, presented, hash);
    case Revoke(sid, reason) => RevokeSessionKills(store, sid, reason);
    case RevokeAll(user, except, reason) => RevokeAllKills(store, user, except, reason);
    case RevokeOneDevice(device, user) => RevokeDeviceKills(store, device, user);
  }

  lemma StepEvolves(guard: Guard, ttl: Ttl, store: Store, now: nat, e: Event)
    requires Sound(store)
    ensures Evolves(store, Step(guard, ttl, store, now, e))
  {
    hide Sound, CreateSession, RevokeSession, RevokeAllUserSessions, RevokeDevice, OnlyRevokes, Untouched, Dead,
         IsFresh, RevokeTokenFamily, Rotated, Evolves;
    var after := Step(guard, ttl, store, now, e);
    if after == store {
      RevokingEvolves(store, store) by { assert OnlyRevokes(store, store) by { NothingOnlyRevokes(store); } }
    } else {
      match e
      case Login(user, fingerprint, ids) => CreateSessionEvolves(store, ttl, now, user, fingerprint, ids);
      case Refresh(presented, hash) =>
        if CountsAsReused(guard, store.tokens[presented]) {
          RevokeFamilyKills(store, presented, "REUSE_DETECTED");
          RevokingEvolves(store, after);
        } else {
          RotatedEvolves(store, ttl, now, presented, hash);
        }
      case Revoke(sid, reason) =>
        RevokeSessionKills(store, sid, reason);
        RevokingEvolves(store, after);
      case RevokeAll(user, except, reason) =>
        RevokeAllKills(store, user, except, reason);
        RevokingEvolves(store, after);
      case RevokeOneDevice(device, user) =>
        RevokeDeviceKills(store, device, user);
        RevokingEvolves(store, after);
    }
  }

  lemma NothingOnlyRevokes(store: Store)
    ensures OnlyRevokes(store, store)
  {
  }

  /** Operations in any order keep every law of token families. */
  lemma {:induction false} RunsAreSound(guard: Guard, ttl: Ttl, store: Store, events: seq<(nat, Event)>)
    requires Sound(store)
    ensures Sound(Run(guard, ttl, store, events))
  {
    hide Sound, Step;
    if events != [] {
      RunsAreSound(guard, ttl, store, events[..|events| - 1]);
      var last := events[|events| - 1];
      StepKeepsSound(guard, ttl, Run(guard, ttl, store, events[..|events| - 1]), last.0, last.1);
    }
  }

  lemma EmptyIsSound()
    ensures Sound(Store(map[], map[], map[]))
  {
  }

  /** So every state that can be reached from empty tables obeys them, under either guard. */
  lemma ReachableIsSound(guard: Guard, ttl: Ttl, events: seq<(nat, Event)>)
    ensures Sound(Run(guard, ttl, Store(map[], map[], map[]), events))
  {
    EmptyIsSound();
    RunsAreSound(guard, ttl, Store(map[], map[], map[]), events);
  }

  // ---- The guard as written ------------------------------------------------------------------------------------

  /** A successor has no successor of its own. */
  ghost predicate Shallow(store: Store) {
    forall h :: h in store.tokens && store.tokens[h].parent.Some? && store.tokens[h].parent.value in store.tokens ==>
      store.tokens[store.tokens[h].parent.value].parent.None?
  }

  lemma StepKeepsShallow(ttl: Ttl, store: Store, now: nat, e: Event)
    requires Sound(store) && Shallow(store)
    ensures Shallow(Step(Written, ttl, store, now, e))
  {
    StepEvolves(Written, ttl, store, now, e);
    var after := Step(Written, ttl, store, now, e);
    StepAddsNoDeepToken(ttl, store, now, e);
    assert forall h :: h in store.tokens && store.tokens[h].parent.Some? ==>
        store.tokens[h].parent.value in store.tokens;
    hide Sound, Step;
  }

  lemma StepAddsNoDeepToken(ttl: Ttl, store: Store, now: nat, e: Event)
    ensures var after := Step(Written, ttl, store, now, e);
            forall h :: h in after.tokens && h !in store.tokens && after.tokens[h].parent.Some? ==>
              after.tokens[h].parent.value in store.tokens && store.tokens[after.tokens[h].parent.value].parent.None?
  {
    hide IsFresh;
  }

  /** What a run of operations keeps of a token: who it belongs to, and where it comes from. */
  lemma {:induction false} RunsKeepTokens(ttl: Ttl, store: Store, events: seq<(nat, Event)>, h: nat)
    requires Sound(store) && Shallow(store) && h in store.tokens
    ensures var after := Run(Written, ttl, store, events);
            Sound(after) && Shallow(after) && h in after.tokens && SameToken(store.tokens[h], after.tokens[h])
  {
    hide Sound, Step, Shallow;
    if events != [] {
      RunsKeepTokens(ttl, store, events[..|events| - 1], h);
      var before, last := Run(Written, ttl, store, events[..|events| - 1]), events[|events| - 1];
      StepKeepsSound(Written, ttl, before, last.0, last.1);
      StepKeepsShallow(ttl, before, last.0, last.1);
      StepEvolves(Written, ttl, before, last.0, last.1);
    }
  }

  /** With the guard as written a session is refreshed at most once in its life, whatever else happens. */
  lemma RefreshedOnlyOnce(ttl: Ttl, store: Store, now: nat, presented: nat, hash: nat, events: seq<(nat, Event)>,
                          later: nat, again: nat, next: nat)
    requires Sound(store) && Shallow(store) && Rotate(Written, store, ttl, now, presented, hash).1.Issued?
    ensures var after := Run(Written, ttl, Rotate(Written, store, ttl, now, presented, hash).0, events);
            && hash in after.tokens && Rotate(Written, after, ttl, later, hash, next).1.Reused?
            && (again in after.tokens && after.tokens[again].session == store.tokens[presented].session ==>
                  Rotate(Written, after, ttl, later, again, next).1.Reused?)
  {
    var issued := Rotate(Written, store, ttl, now, presented, hash).0;
    StepKeepsSound(Written, ttl, store, now, Refresh(presented, hash));
    StepKeepsShallow(ttl, store, now, Refresh(presented, hash));
    RunsKeepTokens(ttl, issued, events, hash);
    var after := Run(Written, ttl, issued, events);
    assert issued.tokens[hash].parent.Some? && issued.tokens[hash].session == store.tokens[presented].session;
    hide Rotated, RevokeTokenFamily, Run;
    if again in after.tokens && after.tokens[again].session == store.tokens[presented].session {
      SuccessorSpendsRoot(after, hash, again);
    }
  }

  lemma SuccessorSpendsRoot(store: Store, h: nat, other: nat)
    requires Sound(store) && Shallow(store) && h in store.tokens && store.tokens[h].parent.Some?
    requires other in store.tokens && store.tokens[other].session == store.tokens[h].session
    ensures CountsAsReused(Written, store.tokens[other])
  {
    var p := store.tokens[h].parent.value;
    assert store.tokens[p].parent.None? && !Live(store.tokens[p]);
    if store.tokens[other].parent.None? {
      assert other == p;
    }
  }

  // ---- The guard as documented -----------------------------------------------------------------------------------

  /** Refreshes in a row, each presenting the token the one before issued; whether all of them issued one. */
  function Chain(guard: Guard, store: Store, ttl: Ttl, now: nat, presented: nat, hashes: seq<nat>): (Store, bool)
    decreases |hashes|
  {
    if hashes == [] then (store, true)
    else
      var (after, outcome) := Rotate(guard, store, ttl, now, presented, hashes[0]);
      if outcome.Issued? then Chain(guard, after, ttl, now, hashes[0], hashes[1..]) else (after, false)
  }

  /** A live first token starts chains of every length under the documented guard, and of length one as written. */
  lemma {:induction false} ChainsGoOnIff(guard: Guard, store: Store, ttl: Ttl, now: nat, presented: nat,
                                         hashes: seq<nat>)
    requires presented in store.tokens && Live(store.tokens[presented]) && now <= store.tokens[presented].expiresAt
    requires Distinct(hashes) && forall i :: 0 <= i < |hashes| ==> hashes[i] !in store.tokens
    ensures Chain(guard, store, ttl, now, presented, hashes).1
            <==> hashes == [] || guard.Documented? || (store.tokens[presented].parent.None? && |hashes| == 1)
    decreases |hashes|
  {
    if hashes != [] && Rotate(guard, store, ttl, now, presented, hashes[0]).1.Issued? {
      var after := Rotate(guard, store, ttl, now, presented, hashes[0]).0;
      assert after.tokens[hashes[0]].parent == Some(presented) && Live(after.tokens[hashes[0]]);
      forall i | 0 <= i < |hashes[1..]|
        ensures hashes[1..][i] !in after.tokens
      {
        assert hashes[1..][i] == hashes[i + 1] && hashes[0] != hashes[i + 1];
      }
      hide Rotated, RevokeTokenFamily;
      ChainsGoOnIff(guard, after, ttl, now, hashes[0], hashes[1..]);
    }
  }
}
