/** Password changes behind the reuse check: what the history holds, and which passwords it keeps apart. */
module PasswordHistory {
  import opened Common

  /** Salted hashing: a hash verifies exactly the password it was made from. */
  datatype Scheme = Scheme(hash: (string, nat) -> string, verify: (string, string) -> bool) {
    ghost predicate Sound() {
      forall p, salt, q :: verify(hash(p, salt), q) <==> p == q
    }
  }

  /** The stored hash and the history, newest first. */
  datatype Account = Account(hash: Option<string>, history: seq<string>)

  const LIMIT: nat := 10

  /** A new account: its first password, if any, is hashed but not put into the history. */
  function Created(scheme: Scheme, password: Option<string>, salt: nat): Account {
    Account(if password.Some? then Some(scheme.hash(password.value, salt)) else None, [])
  }

  function Newest<T>(s: seq<T>): seq<T> {
    s[..Min(|s|, LIMIT)]
  }

  function Updated(scheme: Scheme, a: Account, password: string, salt: nat): Account {
    var hash := scheme.hash(password, salt);
    Account(Some(hash), Newest([hash] + a.history))
  }

  predicate Reused(scheme: Scheme, a: Account, password: string) {
    exists i :: 0 <= i < Min(|a.history|, LIMIT) && scheme.verify(a.history[i], password)
  }

  /** One request to change the password; `allowed` stands for the checks that come before the reuse check. */
  datatype Change = Change(password: string, salt: nat, allowed: bool)

  predicate Accepted(scheme: Scheme, a: Account, c: Change) {
    c.allowed && !Reused(scheme, a, c.password)
  }

  function Step(scheme: Scheme, a: Account, c: Change): Account {
    if Accepted(scheme, a, c) then Updated(scheme, a, c.password, c.salt) else a
  }

  function Run(scheme: Scheme, a: Account, changes: seq<Change>): Account {
    if changes == [] then a else Step(scheme, Run(scheme, a, changes[..|changes| - 1]), changes[|changes| - 1])
  }

  /** The accepted changes of a run, in order. */
  function AcceptedChanges(scheme: Scheme, a: Account, changes: seq<Change>): seq<Change> {
    if changes == [] then []
    else
      var n := |changes| - 1;
      var before := AcceptedChanges(scheme, a, changes[..n]);
      if Accepted(scheme, Run(scheme, a, changes[..n]), changes[n]) then before + [changes[n]] else before
  }

  /** The hashes of the last ten of `set`, newest first. */
  function Window(scheme: Scheme, done: seq<Change>): seq<string> {
    seq(Min(|done|, LIMIT), i requires 0 <= i < Min(|done|, LIMIT) =>
      scheme.hash(done[|done| - 1 - i].password, done[|done| - 1 - i].salt))
  }

  /**
   * The history always holds the last min(n, 10) passwords that were set, newest first, and the current one is the
   * newest.
   */
  lemma {:induction false} HistoryIsWindow(scheme: Scheme, password: Option<string>, salt: nat, changes: seq<Change>)
    ensures var a := Created(scheme, password, salt);
            var accepted := AcceptedChanges(scheme, a, changes);
            var after := Run(scheme, a, changes);
            && after.history == Window(scheme, accepted)
            && (accepted == [] ==> after == a)
            && (accepted != [] ==> after.hash == Some(after.history[0]))
  {
    if changes != [] {
      HistoryIsWindow(scheme, password, salt, changes[..|changes| - 1]);
    }
  }

  /** The check refuses exactly the passwords among the last ten that were set. */
  lemma ReusedIffInWindow(scheme: Scheme, password: Option<string>, salt: nat, changes: seq<Change>, p: string)
    requires scheme.Sound()
    ensures var a := Created(scheme, password, salt);
            var accepted := AcceptedChanges(scheme, a, changes);
            Reused(scheme, Run(scheme, a, changes), p)
            <==> exists i :: Max(0, |accepted| - 10) <= i < |accepted| && accepted[i].password == p
  {
    HistoryIsWindow(scheme, password, salt, changes);
    var a := Created(scheme, password, salt);
    var accepted := AcceptedChanges(scheme, a, changes);
    var history := Run(scheme, a, changes).history;
    hide Run, AcceptedChanges;
    forall i | Max(0, |accepted| - LIMIT) <= i < |accepted|
      ensures scheme.verify(history[|accepted| - 1 - i], p) <==> accepted[i].password == p
    {
      assert history[|accepted| - 1 - i] == scheme.hash(accepted[i].password, accepted[i].salt);
    }
    if Reused(scheme, Run(scheme, a, changes), p) {
      var k :| 0 <= k < Min(|history|, LIMIT) && scheme.verify(history[k], p);
      assert accepted[|accepted| - 1 - k].password == p;
    }
  }

  /** Over any run, any eleven consecutive passwords that were set are pairwise distinct. */
  lemma {:induction false} ElevenInARowAreDistinct(scheme: Scheme, password: Option<string>, salt: nat,
                                                   changes: seq<Change>)
    requires scheme.Sound()
    ensures var accepted := AcceptedChanges(scheme, Created(scheme, password, salt), changes);
            forall i, j :: 0 <= i < j < |accepted| && j - i <= 10 ==> accepted[i].password != accepted[j].password
  {
    if changes != [] {
      var n := |changes| - 1;
      var a := Created(scheme, password, salt);
      ElevenInARowAreDistinct(scheme, password, salt, changes[..n]);
      ReusedIffInWindow(scheme, password, salt, changes[..n], changes[n].password);
      var before, accepted := AcceptedChanges(scheme, a, changes[..n]), AcceptedChanges(scheme, a, changes);
      assert accepted == before || accepted == before + [changes[n]];
      hide Run, Reused, AcceptedChanges;
      forall i, j | 0 <= i < j < |accepted| && j - i <= LIMIT
        ensures accepted[i].password != accepted[j].password
      {
        if j < |before| {
          assert accepted[i] == before[i] && accepted[j] == before[j];
        } else {
          assert accepted[i] == before[i] && Max(0, |before| - LIMIT) <= i;
        }
      }
    }
  }

  /** Only changes that passed the earlier checks are made: one that did not leaves hash and history alone. */
  lemma {:induction false} MadeWereAllowed(scheme: Scheme, a: Account, changes: seq<Change>)
    ensures forall c :: c in AcceptedChanges(scheme, a, changes) ==> c in changes && c.allowed
    ensures forall c: Change :: !c.allowed ==>
              Step(scheme, Run(scheme, a, changes), c) == Run(scheme, a, changes)
  {
    if changes != [] {
      MadeWereAllowed(scheme, a, changes[..|changes| - 1]);
    }
  }

  /** No longer window: an allowed change to a password set eleven changes ago is accepted. */
  lemma OlderPasswordsAreForgotten(scheme: Scheme, password: Option<string>, salt: nat, changes: seq<Change>,
                                   again: Change)
    requires scheme.Sound() && again.allowed
    requires var accepted := AcceptedChanges(scheme, Created(scheme, password, salt), changes);
             forall i :: Max(0, |accepted| - 10) <= i < |accepted| ==> accepted[i].password != again.password
    ensures Accepted(scheme, Run(scheme, Created(scheme, password, salt), changes), again)
  {
    ReusedIffInWindow(scheme, password, salt, changes, again.password);
  }

  /** The password an account is created with is not remembered: it can be set again at once, and stays in use. */
  lemma FirstPasswordCanBeReused(scheme: Scheme, password: string, salt: nat, again: Change)
    requires again.allowed && again.password == password
    ensures var a := Created(scheme, Some(password), salt);
            Accepted(scheme, a, again)
                && (scheme.Sound() ==> scheme.verify(Step(scheme, a, again).hash.value, password))
  {
  }

  // ---- The account as the services change it ------------------------------------------------------------

  class PasswordStore {
    const scheme: Scheme
    var hash: Option<string>
    var history: seq<string>

    function View(): Account
      reads this
    {
      Account(hash, history)
    }

    constructor (scheme: Scheme, password: Option<string>, salt: nat)
      ensures View() == Created(scheme, password, salt) && this.scheme == scheme
    {
      this.scheme := scheme;
      hash := if password.Some? then Some(scheme.hash(password.value, salt)) else None;
      history := [];
    }

    /** Verifies the password against the ten newest hashes, one after the other. */
    method IsPasswordReused(password: string) returns (reused: bool)
      ensures reused <==> Reused(scheme, View(), password)
    {
      var rows := history[..Min(|history|, LIMIT)];
      for i := 0 to |rows|
        invariant forall k :: 0 <= k < i ==> !scheme.verify(rows[k], password)
      {
        if scheme.verify(rows[i], password) {
          return true;
        }
      }
      return false;
    }

    /** Stores the hash, adds it to the history, and deletes all but the ten newest entries. */
    method UpdatePassword(password: string, salt: nat)
      modifies this
      ensures View() == Updated(scheme, old(View()), password, salt)
    {
      hash := Some(scheme.hash(password, salt));
      history := [hash.value] + history;
      if |history| > LIMIT {
        history := history[..LIMIT];
      }
    }

    /** resetPassword, changeOwnPassword and the administrator's reset from the reuse check on. */
    method ChangePassword(c: Change) returns (changed: bool)
      modifies this
      ensures View() == Step(scheme, old(View()), c) && changed == Accepted(scheme, old(View()), c)
    {
      if !c.allowed {
        return false;
      }
      var reused := IsPasswordReused(c.password);
      if reused {
        return false;
      }
      UpdatePassword(c.password, c.salt);
      return true;
    }
  }
}
