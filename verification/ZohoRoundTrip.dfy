/** Push then pull, however the push went: exactly when the pull after it has nothing left to do. */
module ZohoRoundTrip {
  import opened Common
  import opened Text
  import opened ZohoRecords
  import opened ZohoPull
  import opened ZohoMerge
  import opened ZohoPullLaws
  import opened ZohoCompletion
  import opened ZohoThrownPull
  import opened ZohoFixpoint
  import opened ZohoConflicts
  import opened ZohoPush
  import opened ZohoPushLaws
  import opened ZohoPushRows

  // ---- The rows a push reached --------------------------------------------------------------------

  /** The push wrote the row: it was appended, or an operation for it was sent as an update. */
  ghost predicate Reached(env: Env, db: Db, sheet: Sheet, m: Mappings, policy: DeletionPolicy, batchSize: nat,
                          ok: nat -> bool, i: nat)
    requires CanPush(db, batchSize)
  {
    i >= |sheet| || Targets(SentAsUpdates(env, db, sheet, m, policy, batchSize, ok), i)
  }

  /** A row the push reached carries a record of its user. */
  lemma ReachedRow(env: Env, db: Db, sheet: Sheet, m: Mappings, policy: DeletionPolicy, batchSize: nat, ok: nat -> bool,
                   i: nat) returns (op: Op)
    requires CanPush(db, batchSize) && !policy.Delete? && TrimmedNumbers(db)
    requires i < |Push(env, db, sheet, m, policy, batchSize, ok).sheet|
    requires Reached(env, db, sheet, m, policy, batchSize, ok, i)
    requires RowNumber(Push(env, db, sheet, m, policy, batchSize, ok).sheet[i]) != ""
    ensures var row := Push(env, db, sheet, m, policy, batchSize, ok).sheet[i];
            && op in Done(env, db, sheet, m, policy, batchSize, ok) && !op.Remove? && op.meta.number == RowNumber(row)
            && row == (if i < |sheet| then sheet[i] else map[]) + op.values
  {
    hide Push, Plan, PlannedFor, SheetValue, ToRecord, TrimmedNumbers, RowNumber, RowsOf, Done;
    var adds := SentAsAdditions(env, db, sheet, m, policy, batchSize, ok);
    var updates := SentAsUpdates(env, db, sheet, m, policy, batchSize, ok);
    PushSends(env, db, sheet, m, policy, batchSize, ok);
    SentIs(env, db, sheet, m, policy, batchSize, ok);
    if i >= |sheet| {
      op := adds[i - |sheet|];
      AppendedRow(env, db, sheet, m, policy, batchSize, ok, i - |sheet|);
      assert map[] + op.values == op.values;
    } else {
      op :| op in updates && op.Update? && op.row == i;
      PushKeepsRowNumbers(env, db, sheet, m, policy, batchSize, ok, i);
    }
  }

  /** Whatever else failed: a reached row of a live user shows every pushed writable column as the database has it. */
  lemma PushedRowShowsDatabase(env: Env, db: Db, sheet: Sheet, m: Mappings, policy: DeletionPolicy, batchSize: nat,
                               ok: nat -> bool, i: nat, c: Column)
    requires CanPush(db, batchSize) && !policy.Delete? && TrimmedNumbers(db)
    requires i < |Push(env, db, sheet, m, policy, batchSize, ok).sheet| && Writable(c) && PushEnabled(DirectionOf(m, c))
    requires Reached(env, db, sheet, m, policy, batchSize, ok, i)
    requires var number := RowNumber(Push(env, db, sheet, m, policy, batchSize, ok).sheet[i]);
             number != "" && IsLive(db.users, number)
    ensures var pushed := Push(env, db, sheet, m, policy, batchSize, ok);
            var number := RowNumber(pushed.sheet[i]);
            && CellOf(pushed.sheet[i], c) == FieldText(env, db.users[number], c)
            && pushed.db.users == db.users && number in pushed.db.meta
            && pushed.db.meta[number].baseline == StoredBaseline(MetaOf(db.meta, number))
  {
    hide Push, Plan, PlanOp, PlannedFor, SheetValue, ToRecord, TrimmedNumbers, FieldText, RowNumber;
    var op := ReachedRow(env, db, sheet, m, policy, batchSize, ok, i);
    var number := op.meta.number;
    DoneIs(env, db, sheet, m, policy, batchSize, ok);
    PlannedOperations(env, m, policy, sheet, db, op);
    var version :| op.values == ToRecord(env, number, db.users[number], m, version, false);
    RenderingsAgree(env, number, db.users[number], m, version, c);
    PushMetadata(env, db, sheet, m, policy, batchSize, ok, number);
    assert MetaOf(Push(env, db, sheet, m, policy, batchSize, ok).db.meta, number)
        == Some(PushedMeta(MetaOf(db.meta, number), op.meta));
  }

  /**
   * A pull after the push leaves a pushed field of a reached row alone exactly when the database text has no
   * surrounding space, or the baseline already holds the trimmed text.
   */
  lemma PushThenPullIsQuiet(env: Env, db: Db, sheet: Sheet, m: Mappings, policy: DeletionPolicy, batchSize: nat,
                            ok: nat -> bool, i: nat, c: Column)
    requires CanPush(db, batchSize) && !policy.Delete? && TrimmedNumbers(db)
    requires i < |Push(env, db, sheet, m, policy, batchSize, ok).sheet| && Writable(c) && PushEnabled(DirectionOf(m, c))
    requires Reached(env, db, sheet, m, policy, batchSize, ok, i)
    requires var number := RowNumber(Push(env, db, sheet, m, policy, batchSize, ok).sheet[i]);
             number != "" && IsLive(db.users, number)
    ensures var pushed := Push(env, db, sheet, m, policy, batchSize, ok);
            var number := RowNumber(pushed.sheet[i]);
            var text, baseline := FieldText(env, db.users[number], c), StoredBaseline(MetaOf(db.meta, number));
            pushed.db.users == db.users
            && (FirstDecision(env, pushed.db, number, pushed.sheet[i], c).Settle? <==>
                  Trim(text) == text || (c in baseline && baseline[c] == Trim(text)))
  {
    hide Push, SheetValue, Trim, TrimmedNumbers, DbFieldValue, Accepts, Reached, RowNumber;
    PushedRowShowsDatabase(env, db, sheet, m, policy, batchSize, ok, i, c);
    SheetValueIs(Push(env, db, sheet, m, policy, batchSize, ok).sheet[i], c);
  }

  lemma SheetValueIs(row: Cells, c: Column)
    ensures SheetValue(row, c) == Trim(CellOf(row, c))
  {
  }

  // ---- What any push leaves in a field -------------------------------------------------------------

  /** The push sent metadata for the user, or there was some. */
  ghost predicate TrackedAfter(env: Env, db: Db, sheet: Sheet, m: Mappings, policy: DeletionPolicy, batchSize: nat,
                               ok: nat -> bool, number: string)
    requires CanPush(db, batchSize)
  {
    number in db.meta
    || exists op :: op in Done(env, db, sheet, m, policy, batchSize, ok) && op.meta.number == number
  }

  /**
   * The cell that the push leaves (the database text where it wrote one, and what `before` held elsewhere) shows, once
   * trimmed, the database text or the stored baseline.
   */
  ghost predicate CellAgrees(env: Env, db: Db, m: Mappings, before: Cells, reached: bool, number: string, c: Column)
    requires number in db.users && Writable(c)
  {
    var text := FieldText(env, db.users[number], c);
    var value := Trim(if reached && PushEnabled(DirectionOf(m, c)) then text else CellOf(before, c));
    value == text || BaselineOf(db, number, c) == Some(value)
  }

  lemma PushTracks(env: Env, db: Db, sheet: Sheet, m: Mappings, policy: DeletionPolicy, batchSize: nat, ok: nat -> bool,
                   number: string, c: Column)
    requires CanPush(db, batchSize)
    ensures var pushed := Push(env, db, sheet, m, policy, batchSize, ok);
            && pushed.db.users == db.users && BaselineOf(pushed.db, number, c) == BaselineOf(db, number, c)
            && (number in pushed.db.meta <==> TrackedAfter(env, db, sheet, m, policy, batchSize, ok, number))
  {
    hide Push, Plan, SheetValue, BaselineOf, Done;
    var pushed := Push(env, db, sheet, m, policy, batchSize, ok);
    PushMetadata(env, db, sheet, m, policy, batchSize, ok, number);
    if op :| op in Done(env, db, sheet, m, policy, batchSize, ok) && op.meta.number == number {
      assert MetaOf(pushed.db.meta, number) == Some(PushedMeta(MetaOf(db.meta, number), op.meta));
    } else {
      assert MetaOf(pushed.db.meta, number) == MetaOf(db.meta, number);
    }
    SameBaseline(db, pushed.db, number, c);
  }

  /** The push leaves in each cell of a live user's row what `CellAgrees` looks at. */
  lemma CellLeft(env: Env, db: Db, sheet: Sheet, m: Mappings, policy: DeletionPolicy, batchSize: nat, ok: nat -> bool,
                 i: nat, number: string, c: Column)
    requires CanPush(db, batchSize) && !policy.Delete? && TrimmedNumbers(db) && Writable(c)
    requires i < |Push(env, db, sheet, m, policy, batchSize, ok).sheet|
    requires RowOf(db.users, Push(env, db, sheet, m, policy, batchSize, ok).sheet[i], number)
    ensures CellOf(Push(env, db, sheet, m, policy, batchSize, ok).sheet[i], c)
         == if Reached(env, db, sheet, m, policy, batchSize, ok, i) && PushEnabled(DirectionOf(m, c))
            then FieldText(env, db.users[number], c)
            else CellOf(if i < |sheet| then sheet[i] else map[], c)
  {
    hide Push, Plan, PlannedFor, SheetValue, TrimmedNumbers, FieldText, RowNumber, Rendered, PushColumns, Done, IsLive;
    if !Reached(env, db, sheet, m, policy, batchSize, ok, i) {
      PushSends(env, db, sheet, m, policy, batchSize, ok);
    } else if PushEnabled(DirectionOf(m, c)) {
      PushedRowShowsDatabase(env, db, sheet, m, policy, batchSize, ok, i, c);
    } else {
      var op := ReachedRow(env, db, sheet, m, policy, batchSize, ok, i);
      DoneIs(env, db, sheet, m, policy, batchSize, ok);
      PlannedOperations(env, m, policy, sheet, db, op);
      PushColumnsAre(m);
    }
  }

  /** After any push a field of a row is neither written nor reported exactly when it agrees, or is not tracked. */
  lemma PushedFieldIsSilentIff(env: Env, db: Db, sheet: Sheet, m: Mappings, policy: DeletionPolicy, batchSize: nat,
                               ok: nat -> bool, i: nat, number: string, c: Column)
    requires CanPush(db, batchSize) && !policy.Delete? && TrimmedNumbers(db) && Pullable(m, c)
    requires i < |Push(env, db, sheet, m, policy, batchSize, ok).sheet|
    requires RowOf(db.users, Push(env, db, sheet, m, policy, batchSize, ok).sheet[i], number)
    ensures var pushed := Push(env, db, sheet, m, policy, batchSize, ok);
            && pushed.db.users == db.users
            && (c !in RowWrites(env, pushed.db, PullColumns(m), number, pushed.sheet[i])
                && !Reports(FirstDecision(env, pushed.db, number, pushed.sheet[i], c)) <==>
                  || !TrackedAfter(env, db, sheet, m, policy, batchSize, ok, number)
                  || CellAgrees(env, db, m, if i < |sheet| then sheet[i] else map[],
                                Reached(env, db, sheet, m, policy, batchSize, ok, i), number, c))
  {
    hide Push, SheetValue, TrimmedNumbers, RowNumber, FieldText, RowWrites, FirstDecision, BaselineOf, Trim, Reached,
         TrackedAfter;
    var pushed := Push(env, db, sheet, m, policy, batchSize, ok);
    PushTracks(env, db, sheet, m, policy, batchSize, ok, number, c);
    CellLeft(env, db, sheet, m, policy, batchSize, ok, i, number, c);
    SheetValueIs(pushed.sheet[i], c);
    FieldIsSilentIff(env, pushed.db, m, number, pushed.sheet[i], c);
  }

  // ---- A pull that has nothing to do ------------------------------------------------------------------

  lemma {:induction false} OnlyOrphans(env: Env, db: Db, cols: seq<Column>, sheet: Sheet)
    requires forall i, number | 0 <= i < |sheet| && RowOf(db.users, sheet[i], number) ::
               RowReports(env, db, cols, number, sheet[i]) == []
    ensures forall k :: k in AllReports(env, db, cols, sheet) ==> k.field == WHOLE_USER
  {
    hide SheetValue, ReportedConflicts;
    if sheet != [] {
      var init, row := sheet[..|sheet| - 1], sheet[|sheet| - 1];
      assert forall i :: 0 <= i < |init| ==> sheet[i] == init[i];
      OnlyOrphans(env, db, cols, init);
      assert sheet[|init|] == row;
    }
  }

  /** The pull completes, changes no user, and reports only sheet rows without a live user. */
  ghost predicate WritesNothing(env: Env, db: Db, sheet: Sheet, m: Mappings) {
    var (next, outcome), reports := Pull(env, db, sheet, m), AllReports(env, db, PullColumns(m), sheet);
    && outcome == Completed(0, |reports|) && next.users == db.users
    && next.conflicts == db.conflicts + Pending(reports)
    && forall k :: k in reports ==> k.field == WHOLE_USER
  }

  lemma QuietRowsWriteNothing(env: Env, db: Db, sheet: Sheet, m: Mappings)
    requires OneRowEach(db.users, sheet)
    requires forall i, number | 0 <= i < |sheet| && RowOf(db.users, sheet[i], number) ::
               && RowWrites(env, db, PullColumns(m), number, sheet[i]) == []
               && RowReports(env, db, PullColumns(m), number, sheet[i]) == []
    ensures WritesNothing(env, db, sheet, m)
  {
    hide SheetValue, AllReports, PullColumns, OneRowEach, Pull, RowWrites, RowReports, Upsert, AllUpdates;
    SecondPullIs(env, db, sheet, m);
    OnlyOrphans(env, db, PullColumns(m), sheet);
  }

  /** A row writes or reports one of its fields, if anything. */
  lemma RowIsQuiet(env: Env, db: Db, m: Mappings, number: string, row: Cells)
    requires number in db.users
    requires forall c | Pullable(m, c) ::
               c !in RowWrites(env, db, PullColumns(m), number, row) && !Reports(FirstDecision(env, db, number, row, c))
    ensures RowWrites(env, db, PullColumns(m), number, row) == []
    ensures RowReports(env, db, PullColumns(m), number, row) == []
  {
    hide SheetValue, PullColumns, WrittenColumns, ReportedConflicts, Decide, DbFieldValue, FieldConflict;
    var cols, meta := PullColumns(m), MetaOf(db.meta, number);
    PullColumnsAre(m);
    WrittenColumnsAre(env, db.users[number], row, meta, cols);
    ReportedConflictsAre(env, number, db.users[number], row, meta, cols);
    forall c | c in cols && !Writable(c)
      ensures Decide(env, db.users[number], row, meta, c).ReadOnly?
    {
      ReadOnlyDecision(env, db.users[number], row, meta, c);
    }
    EmptyIffNoMember(RowWrites(env, db, cols, number, row));
    EmptyIffNoMember(RowReports(env, db, cols, number, row));
  }

  lemma ReadOnlyDecision(env: Env, snapshot: User, row: Cells, meta: Option<Meta>, c: Column)
    requires !Writable(c)
    ensures Decide(env, snapshot, row, meta, c).ReadOnly?
  {
  }

  /** A pull that writes nothing decides no field of a live user's row as a write or a report. */
  lemma NothingWrittenOrReported(env: Env, db: Db, sheet: Sheet, m: Mappings, i: nat, number: string, c: Column)
    requires WritesNothing(env, db, sheet, m) && Pullable(m, c) && i < |sheet| && RowOf(db.users, sheet[i], number)
    ensures c !in RowWrites(env, db, PullColumns(m), number, sheet[i])
    ensures !Reports(FirstDecision(env, db, number, sheet[i], c))
  {
    hide Pull, AllReports, SheetValue, PullColumns, RowWrites, FirstDecision, Unobstructed, AllWrites, RowNumber,
         Merges;
    var cols := PullColumns(m);
    PullColumnsAre(m);
    WritableIsOwned(c);
    PullCompletesIff(env, db, sheet, m);
    PullIsThreeWayMerge(env, db, sheet, m);
    if RowWrites(env, db, cols, number, sheet[i]) != [] {
      SomeWrites(env, db, cols, sheet, i, number);
    }
    ReportsAreDecided(env, db, cols, sheet, number, c);
    assert !Mentions(AllReports(env, db, cols, sheet), number, c);
  }

  ghost predicate NoChange(env: Env, db: Db, m: Mappings, row: Cells, number: string, c: Column) {
    && number in db.users
    && c !in RowWrites(env, db, PullColumns(m), number, row) && !Reports(FirstDecision(env, db, number, row, c))
  }

  /** No row holds a field that the pull writes or reports. */
  ghost predicate AllQuiet(env: Env, db: Db, sheet: Sheet, m: Mappings) {
    forall i: nat, number, c | i < |sheet| && RowOf(db.users, sheet[i], number) && Pullable(m, c) ::
      NoChange(env, db, m, sheet[i], number, c)
  }

  /** A pull writes nothing exactly when users have one row each and no field is decided as a write or a report. */
  lemma WritesNothingIff(env: Env, db: Db, sheet: Sheet, m: Mappings)
    ensures WritesNothing(env, db, sheet, m) <==>
        && OneRowEach(db.users, sheet)
        && AllQuiet(env, db, sheet, m)
  {
    hide WritesNothing, OneRowEach, RowWrites, RowReports, FirstDecision, RowNumber, PullColumns, Pull, Pullable,
         IsLive, PhonesFree;
    if WritesNothing(env, db, sheet, m) {
      assert OneRowEach(db.users, sheet) by { WritesNothingCompletes(env, db, sheet, m); }
      forall i: nat, number, c | i < |sheet| && RowOf(db.users, sheet[i], number) && Pullable(m, c)
        ensures NoChange(env, db, m, sheet[i], number, c)
      {
        LiveIsThere(db.users, sheet[i], number);
        NothingWrittenOrReported(env, db, sheet, m, i, number, c);
      }
    } else if OneRowEach(db.users, sheet) && AllQuiet(env, db, sheet, m) {
      QuietRows(env, db, sheet, m);
      QuietRowsWriteNothing(env, db, sheet, m);
    }
  }

  lemma QuietRows(env: Env, db: Db, sheet: Sheet, m: Mappings)
    requires AllQuiet(env, db, sheet, m)
    ensures forall i, number | 0 <= i < |sheet| && RowOf(db.users, sheet[i], number) ::
              && RowWrites(env, db, PullColumns(m), number, sheet[i]) == []
              && RowReports(env, db, PullColumns(m), number, sheet[i]) == []
  {
    hide RowWrites, RowReports, FirstDecision, RowNumber, PullColumns, Pullable;
    forall i, number | 0 <= i < |sheet| && RowOf(db.users, sheet[i], number)
      ensures RowWrites(env, db, PullColumns(m), number, sheet[i]) == []
      ensures RowReports(env, db, PullColumns(m), number, sheet[i]) == []
    {
      forall c | Pullable(m, c)
        ensures c !in RowWrites(env, db, PullColumns(m), number, sheet[i])
        ensures !Reports(FirstDecision(env, db, number, sheet[i], c))
      {
        assert NoChange(env, db, m, sheet[i], number, c);
      }
      RowIsQuiet(env, db, m, number, sheet[i]);
    }
  }

  lemma LiveIsThere(users: map<string, User>, row: Cells, number: string)
    requires RowOf(users, row, number)
    ensures number in users
  {
  }

  lemma WritesNothingCompletes(env: Env, db: Db, sheet: Sheet, m: Mappings)
    requires WritesNothing(env, db, sheet, m)
    ensures OneRowEach(db.users, sheet)
  {
    hide Pull, AllReports, PullColumns, PhonesFree, OneRowEach;
    PullCompletesIff(env, db, sheet, m);
  }

  // ---- Push, then pull --------------------------------------------------------------------------------------

  /** Every pulled field of every live user with a row, there before or appended, agrees after the push. */
  ghost predicate AllAgree(env: Env, db: Db, sheet: Sheet, m: Mappings, policy: DeletionPolicy, batchSize: nat,
                           ok: nat -> bool)
    requires CanPush(db, batchSize)
  {
    && (forall i: nat, number, c | i < |sheet| && RowOf(db.users, sheet[i], number) && Pullable(m, c) ::
          || !TrackedAfter(env, db, sheet, m, policy, batchSize, ok, number)
          || CellAgrees(env, db, m, sheet[i], Reached(env, db, sheet, m, policy, batchSize, ok, i), number, c))
    && (PushEnabled(DirectionOf(m, UserId)) ==>
          forall number, c | Appends(env, db, sheet, m, policy, batchSize, ok, number) && IsLive(db.users, number)
                             && Pullable(m, c) ::
            CellAgrees(env, db, m, map[], true, number, c))
  }

  lemma AppendedIsTracked(env: Env, db: Db, sheet: Sheet, m: Mappings, policy: DeletionPolicy, batchSize: nat,
                          ok: nat -> bool, number: string)
    requires CanPush(db, batchSize) && !policy.Delete?
    requires Appends(env, db, sheet, m, policy, batchSize, ok, number)
    ensures TrackedAfter(env, db, sheet, m, policy, batchSize, ok, number)
  {
    hide Done, SentAsAdditions, SentAsUpdates;
    SentIs(env, db, sheet, m, policy, batchSize, ok);
  }

  /** The appended rows with a number are those of the users the push appends a record of. */
  lemma AppendedNumbers(env: Env, db: Db, sheet: Sheet, m: Mappings, policy: DeletionPolicy, batchSize: nat,
                        ok: nat -> bool, number: string)
    requires CanPush(db, batchSize) && !policy.Delete? && TrimmedNumbers(db) && number != ""
    ensures var after := Push(env, db, sheet, m, policy, batchSize, ok).sheet;
            (exists i :: |sheet| <= i < |after| && RowNumber(after[i]) == number)
            <==> PushEnabled(DirectionOf(m, UserId)) && Appends(env, db, sheet, m, policy, batchSize, ok, number)
  {
    hide Push, SentAsAdditions, SentAsUpdates, RowNumber, Done, TrimmedNumbers, RowsOf;
    var after := Push(env, db, sheet, m, policy, batchSize, ok).sheet;
    var adds := SentAsAdditions(env, db, sheet, m, policy, batchSize, ok);
    PushSends(env, db, sheet, m, policy, batchSize, ok);
    forall k | 0 <= k < |adds|
      ensures RowNumber(after[|sheet| + k]) == if PushEnabled(DirectionOf(m, UserId)) then adds[k].meta.number else ""
    {
      AppendedRow(env, db, sheet, m, policy, batchSize, ok, k);
    }
    if i :| |sheet| <= i < |after| && RowNumber(after[i]) == number {
      assert after[i] == after[|sheet| + (i - |sheet|)] && adds[i - |sheet|] in adds;
    }
    if PushEnabled(DirectionOf(m, UserId)) && Appends(env, db, sheet, m, policy, batchSize, ok, number) {
      var k :| 0 <= k < |adds| && adds[k].meta.number == number;
      assert RowNumber(after[|sheet| + k]) == number;
    }
  }

  lemma QuietAgrees(env: Env, db: Db, sheet: Sheet, m: Mappings, policy: DeletionPolicy, batchSize: nat,
                    ok: nat -> bool)
    requires CanPush(db, batchSize) && !policy.Delete? && TrimmedNumbers(db)
    requires var pushed := Push(env, db, sheet, m, policy, batchSize, ok); AllQuiet(env, pushed.db, pushed.sheet, m)
    ensures AllAgree(env, db, sheet, m, policy, batchSize, ok)
  {
    hide Push, TrimmedNumbers, RowWrites, FirstDecision, RowNumber, PullColumns, CellAgrees, Appends, TrackedAfter,
         Done, Targets, SentAsUpdates, SentAsAdditions;
    var pushed := Push(env, db, sheet, m, policy, batchSize, ok);
    PushKeepsUsers(env, db, sheet, m, policy, batchSize, ok);
    forall i: nat, number, c | i < |sheet| && RowOf(db.users, sheet[i], number) && Pullable(m, c)
      ensures || !TrackedAfter(env, db, sheet, m, policy, batchSize, ok, number)
              || CellAgrees(env, db, m, sheet[i], Reached(env, db, sheet, m, policy, batchSize, ok, i), number, c)
    {
      PushKeepsRowNumbers(env, db, sheet, m, policy, batchSize, ok, i);
      assert NoChange(env, pushed.db, m, pushed.sheet[i], number, c);
      PushedFieldIsSilentIff(env, db, sheet, m, policy, batchSize, ok, i, number, c);
    }
    if PushEnabled(DirectionOf(m, UserId)) {
      forall number, c
        | Appends(env, db, sheet, m, policy, batchSize, ok, number) && IsLive(db.users, number) && Pullable(m, c)
        ensures CellAgrees(env, db, m, map[], true, number, c)
      {
        AppendedNumbers(env, db, sheet, m, policy, batchSize, ok, number);
        AppendedIsTracked(env, db, sheet, m, policy, batchSize, ok, number);
        var i: nat :| |sheet| <= i < |pushed.sheet| && RowNumber(pushed.sheet[i]) == number;
        assert NoChange(env, pushed.db, m, pushed.sheet[i], number, c);
        PushedFieldIsSilentIff(env, db, sheet, m, policy, batchSize, ok, i, number, c);
      }
    }
  }

  lemma AgreesQuiet(env: Env, db: Db, sheet: Sheet, m: Mappings, policy: DeletionPolicy, batchSize: nat,
                    ok: nat -> bool)
    requires CanPush(db, batchSize) && !policy.Delete? && TrimmedNumbers(db)
    requires AllAgree(env, db, sheet, m, policy, batchSize, ok)
    ensures var pushed := Push(env, db, sheet, m, policy, batchSize, ok); AllQuiet(env, pushed.db, pushed.sheet, m)
  {
    hide Push, TrimmedNumbers, RowWrites, FirstDecision, RowNumber, PullColumns, CellAgrees, Appends, TrackedAfter,
         Done, Targets, SentAsUpdates, SentAsAdditions;
    var pushed := Push(env, db, sheet, m, policy, batchSize, ok);
    PushKeepsUsers(env, db, sheet, m, policy, batchSize, ok);
    forall i: nat, number, c | i < |pushed.sheet| && RowOf(db.users, pushed.sheet[i], number) && Pullable(m, c)
      ensures NoChange(env, pushed.db, m, pushed.sheet[i], number, c)
    {
      PushedFieldIsSilentIff(env, db, sheet, m, policy, batchSize, ok, i, number, c);
      if i < |sheet| {
        PushKeepsRowNumbers(env, db, sheet, m, policy, batchSize, ok, i);
        assert RowOf(db.users, sheet[i], number);
      } else {
        AppendedNumbers(env, db, sheet, m, policy, batchSize, ok, number);
        assert CellAgrees(env, db, m, map[], true, number, c);
      }
    }
  }

  lemma PushKeepsUsers(env: Env, db: Db, sheet: Sheet, m: Mappings, policy: DeletionPolicy, batchSize: nat,
                       ok: nat -> bool)
    requires CanPush(db, batchSize)
    ensures Push(env, db, sheet, m, policy, batchSize, ok).db.users == db.users
  {
    hide Push;
    PushMetadata(env, db, sheet, m, policy, batchSize, ok, "");
  }

  /**
   * However the push went, the pull after it completes, changes no user and reports only sheet rows without a live
   * user, exactly when live users had one row each, no update was sent as an addition, and every pulled field agrees.
   */
  lemma PushThenPullWritesNothing(env: Env, db: Db, sheet: Sheet, m: Mappings, policy: DeletionPolicy, batchSize: nat,
                                  ok: nat -> bool)
    requires CanPush(db, batchSize) && !policy.Delete? && TrimmedNumbers(db)
    ensures var pushed := Push(env, db, sheet, m, policy, batchSize, ok);
            && pushed.db.users == db.users
            && (WritesNothing(env, pushed.db, pushed.sheet, m) <==>
                  && OneRowEach(db.users, sheet)
                  && !(PushEnabled(DirectionOf(m, UserId)) && RepeatsRow(env, db, sheet, m, policy, batchSize, ok))
                  && AllAgree(env, db, sheet, m, policy, batchSize, ok))
  {
    hide Push, TrimmedNumbers, WritesNothing, AllAgree, AllQuiet, RepeatsRow, OneRowEach;
    var pushed := Push(env, db, sheet, m, policy, batchSize, ok);
    PushKeepsUsers(env, db, sheet, m, policy, batchSize, ok);
    PushKeepsOneRowEach(env, db, sheet, m, policy, batchSize, ok);
    WritesNothingIff(env, pushed.db, pushed.sheet, m);
    if AllAgree(env, db, sheet, m, policy, batchSize, ok) {
      AgreesQuiet(env, db, sheet, m, policy, batchSize, ok);
    }
    if AllQuiet(env, pushed.db, pushed.sheet, m) {
      QuietAgrees(env, db, sheet, m, policy, batchSize, ok);
    }
  }

  /**
   * A bidirectional job pushes and then pulls. An edit of a pushed cell that a pull would apply is overwritten with the
   * database text as soon as the row is reached by the push, before the pull sees it; the pull on its own applies the
   * edit. When the pull has nothing to do no user changes at all.
   */
  lemma JobOverwritesEdits(env: Env, db: Db, sheet: Sheet, m: Mappings, policy: DeletionPolicy, batchSize: nat,
                           ok: nat -> bool, i: nat, number: string, c: Column)
    requires CanPush(db, batchSize) && !policy.Delete? && TrimmedNumbers(db)
    requires i < |sheet| && RowOf(db.users, sheet[i], number) && Applies(env, db, m, number, sheet[i], c)
    requires PushEnabled(DirectionOf(m, c)) && Reached(env, db, sheet, m, policy, batchSize, ok, i)
    ensures var u, pushed := db.users[number], Push(env, db, sheet, m, policy, batchSize, ok);
            && i < |pushed.sheet| && CellOf(pushed.sheet[i], c) == FieldText(env, u, c) != SheetValue(sheet[i], c)
            && pushed.db.users == db.users
            && (OneRowEach(db.users, sheet)
                && !(PushEnabled(DirectionOf(m, UserId)) && RepeatsRow(env, db, sheet, m, policy, batchSize, ok))
                && AllAgree(env, db, sheet, m, policy, batchSize, ok) ==>
                  Pull(env, pushed.db, pushed.sheet, m).0.users == db.users)
    ensures Unobstructed(env, db, m, sheet) ==>
              var u, alone := db.users[number], Pull(env, db, sheet, m).0.users;
              number in alone
              && FieldText(env, alone[number], c)
                 == Normalised(env, u, c, SheetValue(sheet[i], c),
                               u.profile.Some? || InsertsNewProfile(env, db, m, number, sheet[i]))
  {
    hide Push, SheetValue, AllReports, PullColumns, Pull, Unobstructed, FieldText, MergedUser, Normalised, RowNumber,
         InsertsNewProfile, OneRowEach, Accepts, AllAgree, Reached, RepeatsRow, TrimmedNumbers;
    assert SheetValue(sheet[i], c) != FieldText(env, db.users[number], c);
    PushThenPullWritesNothing(env, db, sheet, m, policy, batchSize, ok);
    PushKeepsRowNumbers(env, db, sheet, m, policy, batchSize, ok, i);
    PushedRowShowsDatabase(env, db, sheet, m, policy, batchSize, ok, i, c);
    MergedText(env, db, m, number, sheet[i], c);
    if Unobstructed(env, db, m, sheet) {
      PullIsThreeWayMerge(env, db, sheet, m);
    }
  }
}
