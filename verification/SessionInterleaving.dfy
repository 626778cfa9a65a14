/**
 * Revocations split into their separate UPDATE statements, with logins, refreshes and other revocations in between.
 * Once a revocation completes, the sessions it revoked are dead in every later state.
 */
module SessionInterleaving {
  import opened Common
  import opened Sessions
  import opened SessionLaws

  /** A revocation that has executed some of its statements: what the next one does. */
  datatype Pending =
    | SessionTokens(sid: nat, found: bool, reason: string)
    | UserTokens(sids: set<nat>, reason: string)
    | DeviceSessions(device: nat)
    | DeviceTokens(device: nat, hit: set<nat>)
    | FamilySessions(presented: nat, family: nat, reason: string)

  datatype System = System(store: Store, pending: map<nat, Pending>)

  datatype Action =
    | Login(now: nat, user: nat, fingerprint: Option<string>, ids: Fresh)
    | Refresh(pid: nat, now: nat, presented: nat, hash: nat)
    | BeginRevoke(pid: nat, sid: nat, reason: string)
    | BeginRevokeAll(pid: nat, user: nat, except: Option<nat>, reason: string)
    | BeginRevokeDevice(pid: nat, device: nat, user: nat)
    | Continue(pid: nat)

  /** The next statement of a pending revocation, and what remains of it. */
  function Next(store: Store, p: Pending): (Store, Option<Pending>) {
    match p
    case SessionTokens(sid, _, reason) => (KillTokens(store, {sid}, reason), None)
    case UserTokens(sids, reason) => (KillTokens(store, sids, reason), None)
    case DeviceSessions(device) =>
      (MarkSessions(store, SessionsOfDevice(store, device), "device_revoked"),
       Some(DeviceTokens(device, SessionsOfDevice(store, device))))
    case DeviceTokens(device, _) => (KillTokens(store, SessionsOfDevice(store, device), "device_revoked"), None)
    case FamilySessions(_, family, reason) => (OverwriteSessions(store, SessionsOfFamily(store, family), reason), None)
  }

  /**
   * The first statement of a revocation, or all of an operation that is one step; an identifier in use does nothing.
   */
  ghost function Step(guard: Guard, ttl: Ttl, sys: System, a: Action): System {
    match a
    case Login(now, user, fingerprint, ids) =>
      if IsFresh(sys.store, ids) then sys.(store := CreateSession(sys.store, ttl, now, user, fingerprint, ids)) else sys
    case Refresh(pid, now, presented, hash) =>
      if pid in sys.pending then sys
      else if presented in sys.store.tokens && CountsAsReused(guard, sys.store.tokens[presented]) then
        var family := sys.store.tokens[presented].family;
        System(KillFamily(sys.store, family, "REUSE_DETECTED"),
               sys.pending[pid := FamilySessions(presented, family, "REUSE_DETECTED")])
      else sys.(store := Rotate(guard, sys.store, ttl, now, presented, hash).0)
    case BeginRevoke(pid, sid, reason) =>
      if pid in sys.pending then sys
      else
        System(MarkSessions(sys.store, {sid}, reason),
               sys.pending[pid := SessionTokens(sid, sid in sys.store.sessions, reason)])
    case BeginRevokeAll(pid, user, except, reason) =>
      if pid in sys.pending then sys
      else
        var sids := SessionsOfUser(sys.store, user, except);
        System(MarkSessions(sys.store, sids, reason), sys.pending[pid := UserTokens(sids, reason)])
    case BeginRevokeDevice(pid, device, user) =>
      if pid in sys.pending then sys
      else System(MarkDevice(sys.store, device, user), sys.pending[pid := DeviceSessions(device)])
    case Continue(pid) =>
      if pid !in sys.pending then sys
      else
        var (store, rest) := Next(sys.store, sys.pending[pid]);
        System(store, if rest.Some? then sys.pending[pid := rest.value] else sys.pending - {pid})
  }

  ghost function Run(guard: Guard, ttl: Ttl, sys: System, actions: seq<Action>): System {
    if actions == [] then sys
    else Step(guard, ttl, Run(guard, ttl, sys, actions[..|actions| - 1]), actions[|actions| - 1])
  }

  // ---- The invariant -------------------------------------------------------------------------------

  /** What the statements already executed have established. */
  ghost predicate Progress(store: Store, p: Pending) {
    match p
    case SessionTokens(sid, found, _) => found ==> sid in store.sessions && store.sessions[sid].revoked.Some?
    case UserTokens(sids, _) => forall sid :: sid in sids ==> sid in store.sessions && store.sessions[sid].revoked.Some?
    case DeviceSessions(_) => true
    case DeviceTokens(device, hit) =>
      forall sid :: sid in hit ==>
        sid in store.sessions && store.sessions[sid].revoked.Some? && store.sessions[sid].device == Some(device)
    case FamilySessions(presented, family, _) =>
      && presented in store.tokens && store.tokens[presented].family == family
      && forall h :: h in store.tokens && store.tokens[h].family == family ==> !Live(store.tokens[h])
  }

  ghost predicate Coherent(sys: System) {
    Linked(sys.store) && forall pid :: pid in sys.pending ==> Progress(sys.store, sys.pending[pid])
  }

  /** The sessions a revocation will have revoked once its last statement is done. */
  function Targets(store: Store, p: Pending): set<nat> {
    match p
    case SessionTokens(sid, found, _) => if found then {sid} else {}
    case UserTokens(sids, _) => sids
    case DeviceSessions(_) => {}
    case DeviceTokens(_, hit) => hit
    case FamilySessions(presented, _, _) =>
      if presented in store.tokens then {store.tokens[presented].session} else {}
  }

  lemma EvolvingKeepsProgress(before: Store, after: Store, p: Pending)
    requires Evolves(before, after) && Progress(before, p)
    ensures Progress(after, p)
  {
  }

  // ---- One step ------------------------------------------------------------------------------------------

  lemma NextOnlyRevokes(store: Store, p: Pending)
    ensures OnlyRevokes(store, Next(store, p).0)
  {
    hide OnlyRevokes, MarkSessions, KillTokens, OverwriteSessions;
    match p
    case SessionTokens(sid, _, reason) => KillingOnlyRevokes(store, {sid}, reason);
    case UserTokens(sids, reason) => KillingOnlyRevokes(store, sids, reason);
    case DeviceSessions(device) => MarkingOnlyRevokes(store, SessionsOfDevice(store, device), "device_revoked");
    case DeviceTokens(device, _) => KillingOnlyRevokes(store, SessionsOfDevice(store, device), "device_revoked");
    case FamilySessions(_, family, reason) => OverwritingOnlyRevokes(store, SessionsOfFamily(store, family), reason);
  }

  /** Every statement keeps the laws of token families, and undoes no revocation. */
  lemma StepKeepsLinked(guard: Guard, ttl: Ttl, sys: System, a: Action)
    requires Linked(sys.store)
    ensures var after := Step(guard, ttl, sys, a).store;
            Linked(after) && Evolves(sys.store, after)
  {
    var store, after := sys.store, Step(guard, ttl, sys, a).store;
    hide Linked, Evolves, OnlyRevokes, CreateSession, Rotated, IsFresh, MarkSessions, KillFamily, MarkDevice, Next;
    if a.Login? && IsFresh(store, a.ids) {
      LoginKeepsLinked(store, ttl, a.now, a.user, a.fingerprint, a.ids);
    } else if a.Refresh? && after != store && !CountsAsReused(guard, store.tokens[a.presented]) {
      RotatedKeepsLinked(store, ttl, a.now, a.presented, a.hash);
      RotatedEvolves(store, ttl, a.now, a.presented, a.hash);
    } else {
      assert OnlyRevokes(store, after) by { OtherStepsOnlyRevoke(guard, ttl, sys, a); }
      RevokingKeepsLinked(store, after);
      RevokingEvolves(store, after);
    }
  }

  lemma LoginKeepsLinked(store: Store, ttl: Ttl, now: nat, user: nat, fingerprint: Option<string>, ids: Fresh)
    requires Linked(store) && IsFresh(store, ids)
    ensures var after := CreateSession(store, ttl, now, user, fingerprint, ids);
            Linked(after) && Evolves(store, after)
  {
    CreateSessionKeepsLinked(store, ttl, now, user, fingerprint, ids);
    CreateSessionEvolves(store, ttl, now, user, fingerprint, ids);
  }

  lemma OtherStepsOnlyRevoke(guard: Guard, ttl: Ttl, sys: System, a: Action)
    requires a.Login? ==> !IsFresh(sys.store, a.ids)
    requires a.Refresh? && a.presented in sys.store.tokens && Step(guard, ttl, sys, a).store != sys.store ==>
               CountsAsReused(guard, sys.store.tokens[a.presented])
    ensures OnlyRevokes(sys.store, Step(guard, ttl, sys, a).store)
  {
    var store, after := sys.store, Step(guard, ttl, sys, a).store;
    hide OnlyRevokes, CreateSession, Rotated, IsFresh, MarkSessions, KillFamily, MarkDevice, Next;
    NothingOnlyRevokes(store);
    match a
    case Login(_, _, _, _) =>
    case Refresh(_, _, presented, _) =>
      if after != store {
        KillingFamilyOnlyRevokes(store, store.tokens[presented].family, "REUSE_DETECTED");
      }
    case BeginRevoke(_, sid, reason) => MarkingOnlyRevokes(store, {sid}, reason);
    case BeginRevokeAll(_, user, except, reason) =>
      MarkingOnlyRevokes(store, SessionsOfUser(store, user, except), reason);
    case BeginRevokeDevice(_, device, user) => MarkingDeviceOnlyRevokes(store, device, user);
    case Continue(pid) =>
      if pid in sys.pending {
        NextOnlyRevokes(store, sys.pending[pid]);
      }
  }

  /** The entry a step leaves for a revocation it has begun or advanced. */
  lemma OwnEntryProgresses(guard: Guard, ttl: Ttl, sys: System, a: Action, pid: nat)
    requires Coherent(sys)
    requires var after := Step(guard, ttl, sys, a);
             pid in after.pending && (pid !in sys.pending || after.pending[pid] != sys.pending[pid])
    ensures var after := Step(guard, ttl, sys, a); Progress(after.store, after.pending[pid])
  {
    hide Linked, Rotate, CreateSession, IsFresh;
  }

  lemma StepKeepsCoherent(guard: Guard, ttl: Ttl, sys: System, a: Action)
    requires Coherent(sys)
    ensures Coherent(Step(guard, ttl, sys, a))
  {
    var after := Step(guard, ttl, sys, a);
    StepKeepsLinked(guard, ttl, sys, a);
    forall pid | pid in after.pending
      ensures Progress(after.store, after.pending[pid])
    {
      if pid in sys.pending && after.pending[pid] == sys.pending[pid] {
        EvolvingKeepsProgress(sys.store, after.store, sys.pending[pid]);
      } else {
        OwnEntryProgresses(guard, ttl, sys, a, pid);
      }
    }
    hide Step, Linked, Progress;
  }

  // ---- Completion --------------------------------------------------------------------------------------------

  /** The last statement of a revocation leaves every session it was to revoke dead. */
  lemma CompletionKills(store: Store, p: Pending, sid: nat)
    requires Linked(store) && Progress(store, p) && Next(store, p).1.None? && sid in Targets(store, p)
    ensures Dead(Next(store, p).0, sid)
  {
    match p
    case SessionTokens(_, _, reason) => MarkedAndKilledIsDead(store, {sid}, reason, sid);
    case UserTokens(sids, reason) => MarkedAndKilledIsDead(store, sids, reason, sid);
    case DeviceTokens(device, _) =>
      MarkedAndKilledIsDead(store, SessionsOfDevice(store, device), "device_revoked", sid);
    case FamilySessions(presented, family, reason) => FamilySession(store, presented);
  }

  /** What a pending revocation is to revoke stays the same until its own next statement. */
  lemma TargetsStay(before: Store, after: Store, p: Pending)
    requires Evolves(before, after) && Progress(before, p)
    ensures Targets(after, p) == Targets(before, p)
  {
  }

  lemma StepKeepsEntry(guard: Guard, ttl: Ttl, sys: System, a: Action, pid: nat)
    requires pid in sys.pending && a != Continue(pid)
    ensures var after := Step(guard, ttl, sys, a); pid in after.pending && after.pending[pid] == sys.pending[pid]
  {
    hide Rotate, CreateSession, IsFresh, MarkSessions, KillFamily, MarkDevice, Next, SessionsOfUser;
  }

  // ---- Runs ----------------------------------------------------------------------------------------------------

  lemma {:induction false} RunsStayCoherent(guard: Guard, ttl: Ttl, sys: System, actions: seq<Action>)
    requires Coherent(sys)
    ensures Coherent(Run(guard, ttl, sys, actions))
  {
    hide Coherent, Step;
    if actions != [] {
      RunsStayCoherent(guard, ttl, sys, actions[..|actions| - 1]);
      StepKeepsCoherent(guard, ttl, Run(guard, ttl, sys, actions[..|actions| - 1]), actions[|actions| - 1]);
    }
  }

  lemma {:induction false} RunsKeepDead(guard: Guard, ttl: Ttl, sys: System, actions: seq<Action>, sid: nat)
    requires Coherent(sys) && Dead(sys.store, sid)
    ensures Dead(Run(guard, ttl, sys, actions).store, sid)
  {
    if actions != [] {
      var before := Run(guard, ttl, sys, actions[..|actions| - 1]);
      RunsKeepDead(guard, ttl, sys, actions[..|actions| - 1], sid);
      RunsStayCoherent(guard, ttl, sys, actions[..|actions| - 1]);
      StepKeepsLinked(guard, ttl, before, actions[|actions| - 1]);
      EvolvingKeepsDead(before.store, Step(guard, ttl, before, actions[|actions| - 1]).store, sid);
    }
  }

  lemma {:induction false} RunsKeepEntry(guard: Guard, ttl: Ttl, sys: System, actions: seq<Action>, pid: nat)
    requires Coherent(sys) && pid in sys.pending && Continue(pid) !in actions
    ensures var after := Run(guard, ttl, sys, actions);
            && pid in after.pending && after.pending[pid] == sys.pending[pid]
            && Targets(after.store, sys.pending[pid]) == Targets(sys.store, sys.pending[pid])
  {
    if actions != [] {
      var first, last := actions[..|actions| - 1], actions[|actions| - 1];
      assert last in actions && forall a :: a in first ==> a in actions;
      var before := Run(guard, ttl, sys, first);
      RunsKeepEntry(guard, ttl, sys, first, pid);
      RunsStayCoherent(guard, ttl, sys, first);
      StepKeepsEntry(guard, ttl, before, last, pid);
      StepKeepsLinked(guard, ttl, before, last);
      TargetsStay(before.store, Step(guard, ttl, before, last).store, sys.pending[pid]);
    }
  }

  /**
   * Revocation is final. Between a revocation's first statements and its last one anything may happen, refreshes of the
   * very sessions being revoked included; after the last one, and after anything that follows, its sessions are dead.
   */
  lemma RevocationIsFinal(guard: Guard, ttl: Ttl, sys: System, pid: nat, between: seq<Action>, later: seq<Action>,
                          sid: nat)
    requires Coherent(sys) && pid in sys.pending && Continue(pid) !in between
    requires !sys.pending[pid].DeviceSessions? && sid in Targets(sys.store, sys.pending[pid])
    ensures var completed := Step(guard, ttl, Run(guard, ttl, sys, between), Continue(pid));
            pid !in completed.pending && Dead(Run(guard, ttl, completed, later).store, sid)
  {
    var before := Run(guard, ttl, sys, between);
    RunsKeepEntry(guard, ttl, sys, between, pid);
    RunsStayCoherent(guard, ttl, sys, between);
    var completed := Step(guard, ttl, before, Continue(pid));
    CompletionKills(before.store, before.pending[pid], sid);
    StepKeepsCoherent(guard, ttl, before, Continue(pid));
    RunsKeepDead(guard, ttl, completed, later, sid);
  }

  /** Which sessions each revocation has as its targets once it has begun. */
  lemma TargetsAtBegin(guard: Guard, ttl: Ttl, sys: System, a: Action)
    ensures a.BeginRevoke? && a.pid !in sys.pending && a.sid in sys.store.sessions ==>
              var s := Step(guard, ttl, sys, a); a.pid in s.pending && Targets(s.store, s.pending[a.pid]) == {a.sid}
    ensures a.BeginRevokeAll? && a.pid !in sys.pending ==>
              var s := Step(guard, ttl, sys, a);
              a.pid in s.pending
              && forall sid :: sid in Targets(s.store, s.pending[a.pid]) <==>
                   sid in sys.store.sessions && sys.store.sessions[sid].user == a.user
                   && sys.store.sessions[sid].revoked.None? && a.except != Some(sid)
    ensures a.Continue? && a.pid in sys.pending && sys.pending[a.pid].DeviceSessions? ==>
              var s := Step(guard, ttl, sys, a);
              a.pid in s.pending
              && forall sid :: sid in Targets(s.store, s.pending[a.pid]) <==>
                   sid in sys.store.sessions && sys.store.sessions[sid].device == Some(sys.pending[a.pid].device)
    ensures a.Refresh? && a.pid !in sys.pending && a.presented in sys.store.tokens
            && CountsAsReused(guard, sys.store.tokens[a.presented]) ==>
              var s := Step(guard, ttl, sys, a);
              a.pid in s.pending && Targets(s.store, s.pending[a.pid]) == {sys.store.tokens[a.presented].session}
  {
    hide Rotate, CreateSession, IsFresh;
  }
}
