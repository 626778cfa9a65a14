/** How many rows a push leaves each user with, however its slices are mixed and whichever of them fail. */
module ZohoPushRows {
  import opened Common
  import opened Text
  import opened ZohoRecords
  import opened ZohoPull
  import opened ZohoPullLaws
  import opened ZohoCompletion
  import opened ZohoPush
  import opened ZohoPushLaws

  // ---- Counting rows ----------------------------------------------------------------------------

  /** How many rows carry the number. */
  function RowsOf(sheet: Sheet, number: string): nat {
    if sheet == [] then 0
    else RowsOf(sheet[..|sheet| - 1], number) + if RowNumber(sheet[|sheet| - 1]) == number then 1 else 0
  }

  lemma {:induction false} RowsOfConcat(a: Sheet, b: Sheet, number: string)
    ensures RowsOf(a + b, number) == RowsOf(a, number) + RowsOf(b, number)
  {
    hide RowNumber;
    if b == [] {
      assert a + b == a;
    } else {
      assert (a + b)[..|a + b| - 1] == a + b[..|b| - 1];
      RowsOfConcat(a, b[..|b| - 1], number);
    }
  }

  lemma {:induction false} RowsOfAlike(a: Sheet, b: Sheet, number: string)
    requires |a| == |b| && forall i :: 0 <= i < |a| ==> RowNumber(a[i]) == RowNumber(b[i])
    ensures RowsOf(a, number) == RowsOf(b, number)
  {
    hide RowNumber;
    if a != [] {
      RowsOfAlike(a[..|a| - 1], b[..|b| - 1], number);
    }
  }

  lemma {:induction false} RowsOfSome(sheet: Sheet, number: string)
    ensures RowsOf(sheet, number) > 0 <==> exists i :: 0 <= i < |sheet| && RowNumber(sheet[i]) == number
  {
    hide RowNumber;
    if sheet != [] {
      var init := sheet[..|sheet| - 1];
      RowsOfSome(init, number);
      assert forall i :: 0 <= i < |init| ==> sheet[i] == init[i];
    }
  }

  lemma {:induction false} RowsOfTwo(sheet: Sheet, number: string)
    ensures RowsOf(sheet, number) <= 1 <==>
      forall i, j :: 0 <= i < j < |sheet| && RowNumber(sheet[i]) == number ==> RowNumber(sheet[j]) != number
  {
    hide RowNumber;
    if sheet != [] {
      var init := sheet[..|sheet| - 1];
      RowsOfTwo(init, number);
      RowsOfSome(init, number);
      assert forall i :: 0 <= i < |init| ==> sheet[i] == init[i];
    }
  }

  lemma OneRowEachCounts(users: map<string, User>, sheet: Sheet)
    ensures OneRowEach(users, sheet) <==>
      forall number :: number != "" && IsLive(users, number) ==> RowsOf(sheet, number) <= 1
  {
    hide RowNumber, RowsOf, IsLive;
    forall number ensures RowsOf(sheet, number) <= 1 <==>
      forall i, j :: 0 <= i < j < |sheet| && RowNumber(sheet[i]) == number ==> RowNumber(sheet[j]) != number
    {
      RowsOfTwo(sheet, number);
    }
  }

  // ---- One push -----------------------------------------------------------------------------------

  /** A row that was there keeps its User ID. */
  lemma PushKeepsRowNumbers(env: Env, db: Db, sheet: Sheet, m: Mappings, policy: DeletionPolicy, batchSize: nat,
                            ok: nat -> bool, i: nat)
    requires CanPush(db, batchSize) && !policy.Delete? && TrimmedNumbers(db) && i < |sheet|
    ensures var after := Push(env, db, sheet, m, policy, batchSize, ok).sheet;
            i < |after| && RowNumber(after[i]) == RowNumber(sheet[i])
  {
    hide Push, Plan, PlannedFor, SheetValue, ToRecord, TrimmedNumbers, ValidDb, RowNumber;
    var updates := SentAsUpdates(env, db, sheet, m, policy, batchSize, ok);
    PushSends(env, db, sheet, m, policy, batchSize, ok);
    SentIs(env, db, sheet, m, policy, batchSize, ok);
    if Targets(updates, i) {
      var op :| op in updates && op.Update? && op.row == i;
      RecordsCarryTheirNumber(env, db, sheet, m, policy, op);
    }
  }

  /**
   * The rows appended are the records sent as additions, in order, each with the number of its user. An addition is for
   * a live user that the sheet did not hold; an update sent as an addition repeats the row of its user.
   */
  lemma AppendedRow(env: Env, db: Db, sheet: Sheet, m: Mappings, policy: DeletionPolicy, batchSize: nat,
                    ok: nat -> bool, k: nat)
    requires CanPush(db, batchSize) && !policy.Delete? && TrimmedNumbers(db)
    requires k < |SentAsAdditions(env, db, sheet, m, policy, batchSize, ok)|
    ensures var after := Push(env, db, sheet, m, policy, batchSize, ok).sheet;
            var adds := SentAsAdditions(env, db, sheet, m, policy, batchSize, ok);
            var op := adds[k];
            && |after| == |sheet| + |adds| && op in Done(env, db, sheet, m, policy, batchSize, ok) && !op.Remove?
            && after[|sheet| + k] == op.values
            && RowNumber(op.values) == (if PushEnabled(DirectionOf(m, UserId)) then op.meta.number else "")
            && (op.Add? ==> IsLive(db.users, op.meta.number) && RowsOf(sheet, op.meta.number) == 0)
            && (op.Update? ==> op.row < |sheet| && RowNumber(sheet[op.row]) == op.meta.number)
  {
    hide Push, Plan, PlannedFor, SheetValue, ToRecord, TrimmedNumbers, RowNumber, RowsOf, PlanOp;
    var op := SentAsAdditions(env, db, sheet, m, policy, batchSize, ok)[k];
    PushSends(env, db, sheet, m, policy, batchSize, ok);
    SentIs(env, db, sheet, m, policy, batchSize, ok);
    PlannedOperations(env, m, policy, sheet, db, op);
    PlannedNumber(env, m, policy, sheet, db, op);
    RecordsCarryTheirNumber(env, db, sheet, m, policy, op);
    RowsOfSome(sheet, op.meta.number);
  }

  /** The push appended a record of the user: its operation went out in a slice of additions, whatever it was itself. */
  ghost predicate Appends(env: Env, db: Db, sheet: Sheet, m: Mappings, policy: DeletionPolicy, batchSize: nat,
                          ok: nat -> bool, number: string)
    requires CanPush(db, batchSize)
  {
    exists op :: op in SentAsAdditions(env, db, sheet, m, policy, batchSize, ok) && op.meta.number == number
  }

  lemma {:induction false} RowsOfSent(ops: seq<Op>, number: string)
    requires OneOpEach(ops) && forall op :: op in ops ==> RowNumber(ValuesOf(op)) == op.meta.number
    ensures RowsOf(AllValues(ops), number) == if exists op :: op in ops && op.meta.number == number then 1 else 0
  {
    hide RowNumber, ValuesOf;
    if ops != [] {
      var init, last := ops[..|ops| - 1], ops[|ops| - 1];
      assert ops == init + [last] && last in ops;
      assert forall op :: op in ops <==> op in init || op == last;
      OneOpEachSplits(init, [last]);
      assert last in [last];
      RowsOfSent(init, number);
      assert AllValues(ops)[..|ops| - 1] == AllValues(init) && AllValues(ops)[|ops| - 1] == ValuesOf(last);
    }
  }

  lemma {:induction false} NoNumberSent(ops: seq<Op>, number: string)
    requires number != "" && forall op :: op in ops ==> RowNumber(ValuesOf(op)) == ""
    ensures RowsOf(AllValues(ops), number) == 0
  {
    RowsOfSome(AllValues(ops), number);
    forall i | 0 <= i < |AllValues(ops)|
      ensures RowNumber(AllValues(ops)[i]) == ""
    {
      assert ops[i] in ops;
    }
  }

  /**
   * A push leaves each user with the rows there were, and one more exactly when the User ID column is pushed and the
   * user's operation went out in a succeeded slice that starts with an addition.
   */
  lemma PushAddsRows(env: Env, db: Db, sheet: Sheet, m: Mappings, policy: DeletionPolicy, batchSize: nat,
                     ok: nat -> bool, number: string)
    requires CanPush(db, batchSize) && !policy.Delete? && TrimmedNumbers(db) && number != ""
    ensures RowsOf(Push(env, db, sheet, m, policy, batchSize, ok).sheet, number)
         == RowsOf(sheet, number)
            + if PushEnabled(DirectionOf(m, UserId)) && Appends(env, db, sheet, m, policy, batchSize, ok, number) then 1
              else 0
  {
    hide Push, Plan, PlannedFor, SheetValue, ToRecord, TrimmedNumbers, RowNumber, RowsOf, PlanOp, OneOpEach;
    var after := Push(env, db, sheet, m, policy, batchSize, ok).sheet;
    var adds := SentAsAdditions(env, db, sheet, m, policy, batchSize, ok);
    PushSends(env, db, sheet, m, policy, batchSize, ok);
    SentIs(env, db, sheet, m, policy, batchSize, ok);
    forall i | 0 <= i < |sheet| ensures RowNumber(after[i]) == RowNumber(sheet[i]) {
      PushKeepsRowNumbers(env, db, sheet, m, policy, batchSize, ok, i);
    }
    RowsOfAlike(after[..|sheet|], sheet, number);
    assert after == after[..|sheet|] + AllValues(adds);
    RowsOfConcat(after[..|sheet|], AllValues(adds), number);
    forall op | op in adds
      ensures RowNumber(ValuesOf(op)) == if PushEnabled(DirectionOf(m, UserId)) then op.meta.number else ""
    {
      RecordsCarryTheirNumber(env, db, sheet, m, policy, op);
    }
    if PushEnabled(DirectionOf(m, UserId)) {
      RowsOfSent(adds, number);
    } else {
      NoNumberSent(adds, number);
    }
  }

  /** A live user the sheet does not hold gets one row or none; one, exactly when a record of the user is appended. */
  lemma AbsentUserIsAppendedOnce(env: Env, db: Db, sheet: Sheet, m: Mappings, policy: DeletionPolicy, batchSize: nat,
                                 ok: nat -> bool, number: string)
    requires CanPush(db, batchSize) && !policy.Delete? && TrimmedNumbers(db)
    requires IsLive(db.users, number) && forall i :: 0 <= i < |sheet| ==> RowNumber(sheet[i]) != number
    ensures var rows := RowsOf(Push(env, db, sheet, m, policy, batchSize, ok).sheet, number);
            && rows <= 1
            && (rows == 1 <==> PushEnabled(DirectionOf(m, UserId))
                               && Appends(env, db, sheet, m, policy, batchSize, ok, number))
  {
    hide Push, Appends, RowsOf, RowNumber, TrimmedNumbers;
    RowsOfSome(sheet, number);
    PushAddsRows(env, db, sheet, m, policy, batchSize, ok, number);
  }

  /** A live user's update went out in a slice of additions. */
  ghost predicate RepeatsRow(env: Env, db: Db, sheet: Sheet, m: Mappings, policy: DeletionPolicy, batchSize: nat,
                             ok: nat -> bool)
    requires CanPush(db, batchSize)
  {
    exists op :: op in SentAsAdditions(env, db, sheet, m, policy, batchSize, ok) && op.Update?
                 && IsLive(db.users, op.meta.number)
  }

  /** Live users have one row each after a push exactly when they had before and no update was sent as an addition. */
  lemma PushKeepsOneRowEach(env: Env, db: Db, sheet: Sheet, m: Mappings, policy: DeletionPolicy, batchSize: nat,
                            ok: nat -> bool)
    requires CanPush(db, batchSize) && !policy.Delete? && TrimmedNumbers(db)
    ensures OneRowEach(db.users, Push(env, db, sheet, m, policy, batchSize, ok).sheet) <==>
        && OneRowEach(db.users, sheet)
        && !(PushEnabled(DirectionOf(m, UserId)) && RepeatsRow(env, db, sheet, m, policy, batchSize, ok))
  {
    hide Push, Plan, PlannedFor, SheetValue, ToRecord, TrimmedNumbers, RowNumber, RowsOf, PlanOp, OneOpEach, OneRowEach,
         Done;
    var after := Push(env, db, sheet, m, policy, batchSize, ok).sheet;
    var adds := SentAsAdditions(env, db, sheet, m, policy, batchSize, ok);
    OneRowEachCounts(db.users, sheet);
    OneRowEachCounts(db.users, after);
    forall k | 0 <= k < |adds|
      ensures adds[k].Add? ==> RowsOf(sheet, adds[k].meta.number) == 0
      ensures adds[k].Update? ==> RowsOf(sheet, adds[k].meta.number) > 0
      ensures !adds[k].Remove?
    {
      AppendedRow(env, db, sheet, m, policy, batchSize, ok, k);
      RowsOfSome(sheet, adds[k].meta.number);
    }
    forall number | number != ""
      ensures RowsOf(after, number) == RowsOf(sheet, number)
                + if PushEnabled(DirectionOf(m, UserId))
                    && Appends(env, db, sheet, m, policy, batchSize, ok, number) then 1
                  else 0
    {
      PushAddsRows(env, db, sheet, m, policy, batchSize, ok, number);
    }
  }

  // ---- Push after push -------------------------------------------------------------------------------

  /** One push of a run, on whatever database there is by then. */
  datatype PushEvent = PushEvent(env: Env, db: Db, m: Mappings, policy: DeletionPolicy, batchSize: nat, ok: nat -> bool)

  ghost predicate Keeps(e: PushEvent) {
    CanPush(e.db, e.batchSize) && !e.policy.Delete? && TrimmedNumbers(e.db)
  }

  ghost function SheetAfter(sheet: Sheet, events: seq<PushEvent>): Sheet
    requires forall i :: 0 <= i < |events| ==> Keeps(events[i])
  {
    if events == [] then sheet
    else
      var e := events[|events| - 1];
      assert Keeps(e);
      Push(e.env, e.db, SheetAfter(sheet, events[..|events| - 1]), e.m, e.policy, e.batchSize, e.ok).sheet
  }

  /** No push that keeps rows takes one from a user. */
  lemma {:induction false} PushesKeepRows(sheet: Sheet, events: seq<PushEvent>, number: string)
    requires (forall i :: 0 <= i < |events| ==> Keeps(events[i])) && number != ""
    ensures RowsOf(SheetAfter(sheet, events), number) >= RowsOf(sheet, number)
  {
    hide Push, RowsOf, Appends, TrimmedNumbers, ValidDb;
    if events != [] {
      var e, before := events[|events| - 1], SheetAfter(sheet, events[..|events| - 1]);
      PushesKeepRows(sheet, events[..|events| - 1], number);
      PushAddsRows(e.env, e.db, before, e.m, e.policy, e.batchSize, e.ok, number);
    }
  }

  /** A second row of a user is for good: whatever is pushed later, every pull throws while the user is not deleted. */
  lemma SecondRowIsForGood(sheet: Sheet, events: seq<PushEvent>, number: string, env: Env, db: Db, m: Mappings)
    requires (forall i :: 0 <= i < |events| ==> Keeps(events[i])) && number != ""
    requires RowsOf(sheet, number) > 1 && IsLive(db.users, number)
    ensures Pull(env, db, SheetAfter(sheet, events), m).1.Threw?
  {
    hide Pull, OneRowEach, RowsOf, PhonesFree;
    PushesKeepRows(sheet, events, number);
    OneRowEachCounts(db.users, SheetAfter(sheet, events));
    PullCompletesIff(env, db, SheetAfter(sheet, events), m);
  }
}
