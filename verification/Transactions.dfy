/**
 * BEGIN, COMMIT and ROLLBACK around a body whose statements go to the client of the transaction or past it to the pool.
 */
module Transactions {

  /** One statement, as its effect on the tables, and where it is sent. */
  datatype Statement<!S> = Client(effect: S -> S) | Pool(effect: S -> S)

  /** The committed tables and the effects the open transaction has had so far. */
  datatype Transaction<!S> = Transaction(committed: S, effects: seq<S -> S>)

  function Replay<S>(s: S, effects: seq<S -> S>): S {
    if effects == [] then s else effects[|effects| - 1](Replay(s, effects[..|effects| - 1]))
  }

  function Begin<S>(s: S): Transaction<S> {
    Transaction(s, [])
  }

  function Execute<S>(t: Transaction<S>, statement: Statement<S>): Transaction<S> {
    match statement
    case Client(effect) => t.(effects := t.effects + [effect])
    case Pool(effect) => t.(committed := effect(t.committed))
  }

  function Commit<S>(t: Transaction<S>): S {
    Replay(t.committed, t.effects)
  }

  function Rollback<S>(t: Transaction<S>): S {
    t.committed
  }

  function Run<S>(t: Transaction<S>, body: seq<Statement<S>>): Transaction<S> {
    if body == [] then t else Execute(Run(t, body[..|body| - 1]), body[|body| - 1])
  }

  /** `withTransaction`: the body, then COMMIT, or ROLLBACK when it threw. */
  function WithTransaction<S>(s: S, body: seq<Statement<S>>, throws: bool): S {
    if throws then Rollback(Run(Begin(s), body)) else Commit(Run(Begin(s), body))
  }

  // ---- What survives -------------------------------------------------------------------------

  function ClientEffects<S>(body: seq<Statement<S>>): seq<S -> S> {
    if body == [] then []
    else
      var before, last := ClientEffects(body[..|body| - 1]), body[|body| - 1];
      if last.Client? then before + [last.effect] else before
  }

  function PoolEffects<S>(body: seq<Statement<S>>): seq<S -> S> {
    if body == [] then []
    else
      var before, last := PoolEffects(body[..|body| - 1]), body[|body| - 1];
      if last.Pool? then before + [last.effect] else before
  }

  lemma {:induction false} RunSplits<S>(s: S, body: seq<Statement<S>>)
    ensures Run(Begin(s), body) == Transaction(Replay(s, PoolEffects(body)), ClientEffects(body))
  {
    if body != [] {
      RunSplits(s, body[..|body| - 1]);
      var effects := PoolEffects(body);
      assert body[|body| - 1].Pool? ==> effects[..|effects| - 1] == PoolEffects(body[..|body| - 1]);
    }
  }

  /**
   * A rollback loses every statement of the client and keeps every statement of the pool, in order; a commit keeps all
   * of them, those of the client last.
   */
  lemma TransactionKeeps<S>(s: S, body: seq<Statement<S>>, throws: bool)
    ensures WithTransaction(s, body, throws)
         == if throws then Replay(s, PoolEffects(body)) else Replay(Replay(s, PoolEffects(body)), ClientEffects(body))
  {
    RunSplits(s, body);
  }

  lemma {:induction false} NoPoolEffects<S>(body: seq<Statement<S>>)
    requires forall i :: 0 <= i < |body| ==> body[i].Client?
    ensures PoolEffects(body) == []
  {
    if body != [] {
      NoPoolEffects(body[..|body| - 1]);
    }
  }

  /** A body that throws and has only talked to its client leaves the tables exactly as they were. */
  lemma RollbackUndoesClient<S>(s: S, body: seq<Statement<S>>)
    requires forall i :: 0 <= i < |body| ==> body[i].Client?
    ensures WithTransaction(s, body, true) == s
  {
    TransactionKeeps(s, body, true);
    NoPoolEffects(body);
  }

  // ---- The pool as the services use it ----------------------------------------------------------

  class Database<S> {
    var committed: S
    var open: Transaction<S>

    constructor (s: S)
      ensures committed == s
    {
      committed, open := s, Begin(s);
    }

    method BeginWork()
      modifies this`open
      ensures open == Begin(committed)
    {
      open := Begin(committed);
    }

    /** A statement of the client is seen inside the transaction only; one of the pool is committed at once. */
    method Query(statement: Statement<S>)
      requires open.committed == committed
      modifies this
      ensures open == Execute(old(open), statement) && open.committed == committed
    {
      if statement.Client? {
        open := open.(effects := open.effects + [statement.effect]);
      } else {
        committed := statement.effect(committed);
        open := open.(committed := committed);
      }
    }

    method CommitWork()
      requires open.committed == committed
      modifies this
      ensures committed == Commit(old(open))
    {
      for i := 0 to |open.effects|
        invariant open == old(open) && committed == Replay(open.committed, open.effects[..i])
      {
        assert open.effects[..i + 1][..i] == open.effects[..i];
        committed := open.effects[i](committed);
      }
      assert open.effects[..|open.effects|] == open.effects;
    }

    method RollbackWork()
      requires open.committed == committed
      modifies this`open
      ensures committed == Rollback(old(open))
    {
      open := Begin(committed);
    }

    method Transact(body: seq<Statement<S>>, throws: bool)
      modifies this
      ensures committed == WithTransaction(old(committed), body, throws)
    {
      BeginWork();
      for i := 0 to |body|
        invariant open == Run(Begin(old(committed)), body[..i]) && open.committed == committed
      {
        assert body[..i + 1][..i] == body[..i];
        Query(body[i]);
      }
      assert body[..|body|] == body;
      if throws {
        RollbackWork();
      } else {
        CommitWork();
      }
    }
  }
}
