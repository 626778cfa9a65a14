/** A refresh as the transaction it runs in: which of its statements go through the transaction and which past it. */
module SessionTransactions {
  import opened Common
  import opened Sessions
  import opened Transactions

  function InsertToken(hash: nat, t: Token): Store -> Store {
    (s: Store) => s.(tokens := s.tokens[hash := t])
  }

  /** UPDATE refresh_tokens SET revoked_at ... WHERE id = the presented one. */
  function MarkToken(presented: nat, reason: string): Store -> Store {
    (s: Store) =>
      if presented in s.tokens then
        s.(tokens := s.tokens[presented := s.tokens[presented].(revoked := Some(reason))])
      else s
  }

  function TouchSession(sid: nat, idleExpiresAt: nat): Store -> Store {
    (s: Store) => s.(sessions := map id | id in s.sessions ::
      if id == sid && s.sessions[id].revoked.None? then s.sessions[id].(idleExpiresAt := idleExpiresAt)
      else s.sessions[id])
  }

  function KillFamilyTokens(family: nat): Store -> Store {
    (s: Store) => KillFamily(s, family, "REUSE_DETECTED")
  }

  function RevokeFamilySessions(family: nat): Store -> Store {
    (s: Store) => OverwriteSessions(s, SessionsOfFamily(s, family), "REUSE_DETECTED")
  }

  /** The statements of a refresh in order, and how it ends; it throws unless it issues a token. */
  function RotationBody(guard: Guard, store: Store, ttl: Ttl, now: nat, presented: nat, hash: nat)
    : (seq<Statement<Store>>, Rotation)
  {
    if presented !in store.tokens then ([], Invalid)
    else
      var t := store.tokens[presented];
      if CountsAsReused(guard, t) then
        ([Pool(KillFamilyTokens(t.family)), Pool(RevokeFamilySessions(t.family))], Reused)
      else if t.expiresAt < now then ([Client(MarkToken(presented, "expired"))], Expired)
      else if hash in store.tokens then ([], Failed)
      else
        ([Client(InsertToken(hash, t.(parent := Some(presented), expiresAt := now + ttl.refresh, revoked := None))),
          Client(MarkToken(presented, "rotated")),
          Client(TouchSession(t.session, now + ttl.idle))],
         Issued(hash, t.user, t.session))
  }

  lemma ReplayMore<S>(s: S, effects: seq<S -> S>, last: S -> S)
    ensures Replay(s, effects + [last]) == last(Replay(s, effects))
  {
    assert (effects + [last])[..|effects|] == effects;
  }

  lemma ReplayThree<S>(s: S, a: S -> S, b: S -> S, c: S -> S)
    ensures Replay(s, [a, b]) == b(a(s)) && Replay(s, [a, b, c]) == c(b(a(s)))
  {
    ReplayMore(s, [], a);
    ReplayMore(s, [a], b);
    ReplayMore(s, [a, b], c);
    assert [] + [a] == [a] && [a] + [b] == [a, b] && [a, b] + [c] == [a, b, c];
  }

  lemma MoreEffects<S>(body: seq<Statement<S>>, last: Statement<S>)
    ensures PoolEffects(body + [last]) == PoolEffects(body) + if last.Pool? then [last.effect] else []
    ensures ClientEffects(body + [last]) == ClientEffects(body) + if last.Client? then [last.effect] else []
  {
    assert (body + [last])[..|body|] == body;
  }

  lemma TwoPool<S>(a: S -> S, b: S -> S)
    ensures PoolEffects([Pool(a), Pool(b)]) == [a, b]
  {
    MoreEffects([], Pool(a));
    MoreEffects([Pool(a)], Pool(b));
    assert [] + [Pool(a)] == [Pool(a)] && [Pool(a)] + [Pool(b)] == [Pool(a), Pool(b)];
  }

  lemma ThreeClient<S>(a: S -> S, b: S -> S, c: S -> S)
    ensures var body := [Client(a), Client(b), Client(c)]; ClientEffects(body) == [a, b, c] && PoolEffects(body) == []
  {
    MoreEffects([], Client(a));
    MoreEffects([Client(a)], Client(b));
    MoreEffects([Client(a), Client(b)], Client(c));
    assert [] + [Client(a)] == [Client(a)] && [Client(a)] + [Client(b)] == [Client(a), Client(b)];
    assert [Client(a), Client(b)] + [Client(c)] == [Client(a), Client(b), Client(c)];
  }

  /** A refresh is its statements run in a transaction that is rolled back unless a token is issued. */
  lemma RotateIsATransaction(guard: Guard, store: Store, ttl: Ttl, now: nat, presented: nat, hash: nat)
    ensures var (body, outcome) := RotationBody(guard, store, ttl, now, presented, hash);
            Rotate(guard, store, ttl, now, presented, hash) == (WithTransaction(store, body, !outcome.Issued?), outcome)
  {
    var (body, outcome) := RotationBody(guard, store, ttl, now, presented, hash);
    TransactionKeeps(store, body, !outcome.Issued?);
    hide WithTransaction;
    if outcome.Reused? {
      var family := store.tokens[presented].family;
      TwoPool(KillFamilyTokens(family), RevokeFamilySessions(family));
      ReplayThree(store, KillFamilyTokens(family), RevokeFamilySessions(family), KillFamilyTokens(family));
    } else if outcome.Issued? {
      var t := store.tokens[presented];
      var insert := InsertToken(hash, t.(parent := Some(presented), expiresAt := now + ttl.refresh, revoked := None));
      var mark, touch := MarkToken(presented, "rotated"), TouchSession(t.session, now + ttl.idle);
      ThreeClient(insert, mark, touch);
      ReplayThree(store, insert, mark, touch);
      IssuingEffects(store, ttl, now, presented, hash);
    } else {
      NoPoolEffects(body);
    }
  }

  lemma IssuingEffects(store: Store, ttl: Ttl, now: nat, presented: nat, hash: nat)
    requires presented in store.tokens && hash !in store.tokens
    ensures var t := store.tokens[presented];
            var next := t.(parent := Some(presented), expiresAt := now + ttl.refresh, revoked := None);
            var inserted := InsertToken(hash, next)(store);
            TouchSession(t.session, now + ttl.idle)(MarkToken(presented, "rotated")(inserted))
            == Rotated(store, ttl, now, presented, hash)
  {
  }

  /** A refresh that neither succeeds nor detects reuse leaves no trace: the mark of an expired token is rolled back. */
  lemma OtherFailuresChangeNothing(guard: Guard, store: Store, ttl: Ttl, now: nat, presented: nat, hash: nat)
    ensures var (after, outcome) := Rotate(guard, store, ttl, now, presented, hash);
            !outcome.Issued? && !outcome.Reused? ==> after == store
  {
    var (body, outcome) := RotationBody(guard, store, ttl, now, presented, hash);
    RotateIsATransaction(guard, store, ttl, now, presented, hash);
    hide Rotate;
    if !outcome.Issued? && !outcome.Reused? {
      RollbackUndoesClient(store, body);
    }
  }
}
