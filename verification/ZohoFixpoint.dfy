/**
 * Repeating a pull. With no edits in between, the second pull is a no-op that reports the same conflicts,
 * unless a row of the first one inserted an employee profile while reporting an Employment Type conflict.
 */
module ZohoFixpoint {
  import opened Common
  import opened Text
  import opened ZohoRecords
  import opened ZohoPull
  import opened ZohoMerge
  import opened ZohoPullLaws
  import opened ZohoCompletion
  import opened ZohoPartialPull
  import opened ZohoThrownPull

  /** The row reports an Employment Type conflict for a user whose profile it inserts. */
  ghost predicate Masks(env: Env, db: Db, m: Mappings, number: string, row: Cells)
    requires number in db.users
  {
    && InsertsNewProfile(env, db, m, number, row)
    && PullEnabled(DirectionOf(m, EmploymentType))
    && Reports(Decide(env, db.users[number], row, MetaOf(db.meta, number), EmploymentType))
  }

  ghost predicate AnyMask(env: Env, db: Db, m: Mappings, sheet: Sheet) {
    exists i, number :: 0 <= i < |sheet| && RowOf(db.users, sheet[i], number) && Masks(env, db, m, number, sheet[i])
  }

  /** `next` holds what a completed pull of `row` left for `number`. */
  ghost predicate PulledRow(env: Env, db: Db, m: Mappings, next: Db, number: string, row: Cells)
    requires number in db.users
  {
    && number in next.users && next.users[number] == MergedUser(env, db, PullColumns(m), number, row)
    && number in next.meta && next.meta[number] == MergedMeta(env, db, PullColumns(m), number, row)
  }

  // ---- One row, pulled again --------------------------------------------------------------------

  lemma SecondDecision(env: Env, db: Db, m: Mappings, next: Db, number: string, row: Cells, c: Column)
    requires number in db.users && PulledRow(env, db, m, next, number, row) && c in PullColumns(m)
    requires !(c == EmploymentType && Masks(env, db, m, number, row))
    ensures var first, second := FirstDecision(env, db, number, row, c), FirstDecision(env, next, number, row, c);
            && second == (if Acknowledges(first) then Settle else first)
            && (Reports(first) ==> DbFieldValue(env, next.users[number], c) == DbFieldValue(env, db.users[number], c))
  {
    hide SheetValue, Accepts, MergedUser, InsertsNewProfile, DbFieldValue, PullColumns, BaselineAfter;
    PullColumnsAre(m);
    BaselineLookup(env, db.users[number], row, MetaOf(db.meta, number), PullColumns(m), c);
    if Reports(FirstDecision(env, db, number, row, c)) {
      MergedText(env, db, m, number, row, c);
      WriteDecision(env, db, number, row, c);
      FieldTextIsValue(env, db.users[number], next.users[number], c);
    }
  }

  lemma FieldTextIsValue(env: Env, a: User, b: User, c: Column)
    requires Writable(c) && FieldText(env, a, c) == FieldText(env, b, c)
    ensures DbFieldValue(env, a, c) == DbFieldValue(env, b, c)
  {
  }

  ghost predicate SameReports(env: Env, db: Db, next: Db, number: string, row: Cells, cols: seq<Column>)
    requires number in db.users && number in next.users
  {
    forall c | c in cols ::
      var first, second := FirstDecision(env, db, number, row, c), FirstDecision(env, next, number, row, c);
      && Reports(first) == Reports(second)
      && (Reports(first) ==> DbFieldValue(env, next.users[number], c) == DbFieldValue(env, db.users[number], c))
  }

  lemma {:induction false} ReportsAlike(env: Env, db: Db, next: Db, number: string, row: Cells, cols: seq<Column>)
    requires number in db.users && number in next.users && SameReports(env, db, next, number, row, cols)
    ensures RowReports(env, next, cols, number, row) == RowReports(env, db, cols, number, row)
  {
    hide Decide, DbFieldValue, SheetValue;
    if cols != [] {
      assert cols[|cols| - 1] in cols;
      assert forall c :: c in cols[..|cols| - 1] ==> c in cols;
      ReportsAlike(env, db, next, number, row, cols[..|cols| - 1]);
    }
  }

  lemma RowAgain(env: Env, db: Db, m: Mappings, next: Db, number: string, row: Cells)
    requires number in db.users && PulledRow(env, db, m, next, number, row) && !Masks(env, db, m, number, row)
    ensures var cols := PullColumns(m);
            && RowWrites(env, next, cols, number, row) == []
            && RowReports(env, next, cols, number, row) == RowReports(env, db, cols, number, row)
            && MergedUser(env, next, cols, number, row) == next.users[number]
            && MergedMeta(env, next, cols, number, row) == next.meta[number]
  {
    hide Decide, DbFieldValue, SheetValue, Masks, PullColumns, InSheetOrder, BaselineAfter;
    var cols := PullColumns(m);
    PullColumnsAre(m);
    forall c | c in cols
      ensures FirstDecision(env, next, number, row, c)
           == if Acknowledges(FirstDecision(env, db, number, row, c)) then Settle
              else FirstDecision(env, db, number, row, c)
      ensures Reports(FirstDecision(env, db, number, row, c))
          ==> DbFieldValue(env, next.users[number], c) == DbFieldValue(env, db.users[number], c)
    {
      SecondDecision(env, db, m, next, number, row, c);
    }
    assert RowWrites(env, next, cols, number, row) == [] by {
      WrittenColumnsAre(env, next.users[number], row, MetaOf(next.meta, number), cols);
      EmptyIffNoMember(RowWrites(env, next, cols, number, row));
    }
    ReportsAlike(env, db, next, number, row, cols);
    BaselineAgain(env, db, m, next, number, row);
  }

  lemma BaselineAgain(env: Env, db: Db, m: Mappings, next: Db, number: string, row: Cells)
    requires number in db.users && PulledRow(env, db, m, next, number, row)
    requires forall c | c in PullColumns(m) :: Acknowledges(FirstDecision(env, next, number, row, c)) ==>
               Acknowledges(FirstDecision(env, db, number, row, c))
    ensures BaselineAfter(env, next.users[number], row, MetaOf(next.meta, number), PullColumns(m))
        == next.meta[number].baseline
  {
    hide Decide, SheetValue, PullColumns, BaselineAfter;
    var cols := PullColumns(m);
    var again := BaselineAfter(env, next.users[number], row, MetaOf(next.meta, number), cols);
    forall c ensures (c in again <==> c in next.meta[number].baseline)
                  && (c in again ==> again[c] == next.meta[number].baseline[c]) {
      BaselineLookup(env, db.users[number], row, MetaOf(db.meta, number), cols, c);
      BaselineLookup(env, next.users[number], row, MetaOf(next.meta, number), cols, c);
    }
  }

  // ---- The sheet, pulled again -----------------------------------------------------------------------

  /** `next` is what a completed pull left: every live user's row merged, everyone else untouched. */
  ghost predicate Pulled(env: Env, db: Db, m: Mappings, sheet: Sheet, next: Db) {
    && next.users.Keys == db.users.Keys
    && (forall number | number in db.users :: next.users[number].deleted == db.users[number].deleted)
    && (forall i, number | 0 <= i < |sheet| && RowOf(db.users, sheet[i], number) ::
          PulledRow(env, db, m, next, number, sheet[i]))
  }

  lemma {:induction false} RowCannotFail(env: Env, users: map<string, User>, number: string, snapshot: User, row: Cells,
                                         meta: Option<Meta>, cols: seq<Column>)
    requires number in users && WrittenColumns(env, snapshot, row, meta, cols) == []
    ensures !PullRow(env, users, number, snapshot, row, meta, cols).failed
  {
    hide Decide, SheetValue, DbFieldValue;
    if cols != [] {
      RowCannotFail(env, users, number, snapshot, row, meta, cols[..|cols| - 1]);
    }
  }

  /** No row of the sheet writes anything. */
  ghost predicate NothingToWrite(env: Env, db: Db, cols: seq<Column>, sheet: Sheet) {
    forall i, number | 0 <= i < |sheet| && RowOf(db.users, sheet[i], number) ::
      RowWrites(env, db, cols, number, sheet[i]) == []
  }

  lemma {:induction false} SheetCannotFail(env: Env, db: Db, cols: seq<Column>, sheet: Sheet)
    requires NothingToWrite(env, db, cols, sheet)
    ensures !PullRows(env, db.users, db.meta, cols, sheet).failed
    ensures PullRows(env, db.users, db.meta, cols, sheet).writes == 0
  {
    hide PullRow, SheetValue, WrittenColumns;
    if sheet != [] {
      var init, row := sheet[..|sheet| - 1], sheet[|sheet| - 1];
      assert forall i :: 0 <= i < |init| ==> sheet[i] == init[i];
      SheetCannotFail(env, db, cols, init);
      var r, number := PullRows(env, db.users, db.meta, cols, init), RowNumber(row);
      if RowOf(db.users, row, number) {
        assert RowOf(db.users, sheet[|init|], number);
        RowCannotFail(env, r.users, number, db.users[number], row, MetaOf(db.meta, number), cols);
        RowResultIs(env, r.users, number, db.users[number], row, MetaOf(db.meta, number), cols);
      }
    }
  }

  lemma {:induction false} SheetAgain(env: Env, db: Db, m: Mappings, sheet: Sheet, next: Db)
    requires Pulled(env, db, m, sheet, next) && !AnyMask(env, db, m, sheet)
    ensures AllReports(env, next, PullColumns(m), sheet) == AllReports(env, db, PullColumns(m), sheet)
    ensures AllUpdates(env, next, PullColumns(m), sheet) == AllUpdates(env, db, PullColumns(m), sheet)
  {
    hide SheetValue, RowReports, MergedMeta, MergedUser, Masks, Orphan, OrphanConflict, PullColumns;
    if sheet != [] {
      var init, row := sheet[..|sheet| - 1], sheet[|sheet| - 1];
      assert forall i :: 0 <= i < |init| ==> sheet[i] == init[i];
      assert !AnyMask(env, db, m, init);
      SheetAgain(env, db, m, init, next);
      var number := RowNumber(row);
      if RowOf(db.users, row, number) {
        assert RowOf(db.users, sheet[|init|], number);
        RowAgain(env, db, m, next, number, row);
      }
    }
  }

  lemma {:induction false} UpsertSame(meta: map<string, Meta>, updates: seq<MetaUpdate>)
    requires forall k :: 0 <= k < |updates| ==> MetaOf(meta, updates[k].number) == Some(updates[k].meta)
    ensures Upsert(meta, updates) == meta
  {
    if updates != [] {
      var init, last := updates[..|updates| - 1], updates[|updates| - 1];
      assert forall k :: 0 <= k < |init| ==> updates[k] == init[k];
      UpsertSame(meta, init);
    }
  }

  lemma {:induction false} UpdatesAreRows(env: Env, db: Db, cols: seq<Column>, sheet: Sheet, k: nat) returns (i: nat)
    requires k < |AllUpdates(env, db, cols, sheet)|
    ensures var update := AllUpdates(env, db, cols, sheet)[k];
            i < |sheet| && RowOf(db.users, sheet[i], update.number)
            && update.meta == MergedMeta(env, db, cols, update.number, sheet[i])
  {
    hide SheetValue, MergedMeta;
    var init := sheet[..|sheet| - 1];
    if k < |AllUpdates(env, db, cols, init)| {
      i := UpdatesAreRows(env, db, cols, init, k);
    } else {
      i := |sheet| - 1;
    }
  }

  lemma CompletedPull(env: Env, db: Db, sheet: Sheet, m: Mappings)
    requires Pull(env, db, sheet, m).1.Completed?
    ensures Pulled(env, db, m, sheet, Pull(env, db, sheet, m).0)
    ensures Upsert(Pull(env, db, sheet, m).0.meta, AllUpdates(env, db, PullColumns(m), sheet))
        == Pull(env, db, sheet, m).0.meta
  {
    hide SheetValue, PullColumns, MergedMeta, AllReports, Pull, AllUpdates, OneRowEach, DbFieldValue, RowWrites;
    var next, cols := Pull(env, db, sheet, m).0, PullColumns(m);
    CompletedPullMerges(env, db, sheet, m);
    forall number | number in db.users ensures next.users[number].deleted == db.users[number].deleted {
      if HasRow(db.users, sheet, number) {
        var i :| 0 <= i < |sheet| && RowOf(db.users, sheet[i], number);
      }
    }
    forall i, number | 0 <= i < |sheet| && RowOf(db.users, sheet[i], number)
      ensures PulledRow(env, db, m, next, number, sheet[i])
    {
      assert MetaOf(next.meta, number) == Some(MergedMeta(env, db, cols, number, sheet[i]));
    }
    var updates := AllUpdates(env, db, cols, sheet);
    forall k | 0 <= k < |updates| ensures MetaOf(next.meta, updates[k].number) == Some(updates[k].meta) {
      var i := UpdatesAreRows(env, db, cols, sheet, k);
    }
    UpsertSame(next.meta, updates);
  }

  // ---- The clock of the second pull ---------------------------------------------------------------

  /** Only written users are stamped: what a row writes, reports and stores does not depend on the time. */
  lemma {:induction false} RowAtAnyTime(env: Env, t: int, db: Db, number: string, row: Cells, cols: seq<Column>)
    requires number in db.users
    ensures RowWrites(env.(now := t), db, cols, number, row) == RowWrites(env, db, cols, number, row)
    ensures RowReports(env.(now := t), db, cols, number, row) == RowReports(env, db, cols, number, row)
    ensures var snapshot, meta := db.users[number], MetaOf(db.meta, number);
            BaselineAfter(env.(now := t), snapshot, row, meta, cols) == BaselineAfter(env, snapshot, row, meta, cols)
  {
    hide SheetValue;
    if cols != [] {
      RowAtAnyTime(env, t, db, number, row, cols[..|cols| - 1]);
      DecideAtAnyTime(env, t, db, number, row, cols[|cols| - 1]);
      hide Decide, FieldConflict;
    }
  }

  lemma DecideAtAnyTime(env: Env, t: int, db: Db, number: string, row: Cells, c: Column)
    requires number in db.users
    ensures FirstDecision(env.(now := t), db, number, row, c) == FirstDecision(env, db, number, row, c)
    ensures FieldConflict(env.(now := t), number, db.users[number], row, c)
         == FieldConflict(env, number, db.users[number], row, c)
  {
    hide SheetValue;
  }

  lemma OrphanAtAnyTime(env: Env, t: int, row: Cells)
    ensures Orphan(env.(now := t), row) == Orphan(env, row)
    ensures OrphanConflict(env.(now := t), row) == OrphanConflict(env, row)
  {
    hide SheetValue;
  }

  lemma {:induction false} SheetAtAnyTime(env: Env, t: int, db: Db, sheet: Sheet, cols: seq<Column>)
    ensures AllReports(env.(now := t), db, cols, sheet) == AllReports(env, db, cols, sheet)
    ensures AllUpdates(env.(now := t), db, cols, sheet) == AllUpdates(env, db, cols, sheet)
  {
    hide SheetValue, RowWrites, RowReports, BaselineAfter, Orphan, OrphanConflict;
    if sheet != [] {
      var row := sheet[|sheet| - 1];
      SheetAtAnyTime(env, t, db, sheet[..|sheet| - 1], cols);
      OrphanAtAnyTime(env, t, row);
      if RowNumber(row) in db.users {
        RowAtAnyTime(env, t, db, RowNumber(row), row, cols);
      }
    }
  }

  /**
   * A second pull, at any time `t`, completes, writes nothing, changes no baseline or version, and reports the same
   * conflicts.
   */
  ghost predicate Quiet(env: Env, db: Db, sheet: Sheet, m: Mappings, t: int) {
    var next := Pull(env, db, sheet, m).0;
    var again := Pull(env.(now := t), next, sheet, m);
    var reported := AllReports(env, db, PullColumns(m), sheet);
    && again.1 == Completed(0, |reported|)
    && again.0 == next.(conflicts := next.conflicts + Pending(reported))
  }

  lemma QuietWithoutMask(env: Env, db: Db, sheet: Sheet, m: Mappings, t: int)
    requires Pull(env, db, sheet, m).1.Completed? && !AnyMask(env, db, m, sheet)
    ensures Quiet(env, db, sheet, m, t)
  {
    hide SheetValue, PullColumns, MergedMeta, OneRowEach, DbFieldValue, RowWrites, AllReports, AllUpdates, PullRows,
         AnyMask, MergedUser, NothingToWrite, PulledRow, Upsert, Pulled, Merges, MetaOf, RowOf, NamesTwice,
         InSheetOrder, Pending;
    var next, cols := Pull(env, db, sheet, m).0, PullColumns(m);
    PullColumnsAre(m);
    CompletedPull(env, db, sheet, m);
    SheetAgain(env, db, m, sheet, next);
    RowsAgain(env, db, m, sheet, next);
    CompletedPullMerges(env, db, sheet, m);
    OneRowEachAgain(env, db, m, sheet, next);
    SheetAtAnyTime(env, t, next, sheet, cols);
    NothingAtAnyTime(env, t, next, sheet, cols);
    SecondPullIs(env.(now := t), next, sheet, m);
  }

  lemma NothingAtAnyTime(env: Env, t: int, db: Db, sheet: Sheet, cols: seq<Column>)
    requires NothingToWrite(env, db, cols, sheet)
    ensures NothingToWrite(env.(now := t), db, cols, sheet)
  {
    hide RowWrites, RowNumber;
    forall i, number | 0 <= i < |sheet| && RowOf(db.users, sheet[i], number)
      ensures RowWrites(env.(now := t), db, cols, number, sheet[i]) == []
    {
      RowAtAnyTime(env, t, db, number, sheet[i], cols);
    }
  }

  lemma SecondPullIs(env: Env, db: Db, sheet: Sheet, m: Mappings)
    requires NothingToWrite(env, db, PullColumns(m), sheet) && OneRowEach(db.users, sheet)
    ensures var reported, (next, outcome) := AllReports(env, db, PullColumns(m), sheet), Pull(env, db, sheet, m);
            && outcome == Completed(0, |reported|)
            && next == db.(conflicts := db.conflicts + Pending(reported),
                           meta := Upsert(db.meta, AllUpdates(env, db, PullColumns(m), sheet)))
  {
    hide SheetValue, PullColumns, OneRowEach, RowWrites, AllReports, AllUpdates, PullRows, NothingToWrite, Upsert,
         Merges, MetaOf, NamesTwice, InSheetOrder, Pending;
    var cols := PullColumns(m);
    PullColumnsAre(m);
    SheetCannotFail(env, db, cols, sheet);
    PullReports(env, db, cols, sheet);
    NamesTwiceIs(env, db, cols, sheet);
    PullMergesUsers(env, db, cols, sheet);
    UsersAgain(env, db, cols, sheet, PullRows(env, db.users, db.meta, cols, sheet).users);
  }

  lemma RowsAgain(env: Env, db: Db, m: Mappings, sheet: Sheet, next: Db)
    requires Pulled(env, db, m, sheet, next) && !AnyMask(env, db, m, sheet)
    ensures NothingToWrite(env, next, PullColumns(m), sheet)
  {
    hide SheetValue, PullColumns, RowWrites, MergedUser, MergedMeta, Masks;
    forall i, number | 0 <= i < |sheet| && RowOf(next.users, sheet[i], number)
      ensures RowWrites(env, next, PullColumns(m), number, sheet[i]) == []
    {
      assert RowOf(db.users, sheet[i], number);
      RowAgain(env, db, m, next, number, sheet[i]);
    }
  }

  lemma OneRowEachAgain(env: Env, db: Db, m: Mappings, sheet: Sheet, next: Db)
    requires Pulled(env, db, m, sheet, next) && OneRowEach(db.users, sheet)
    ensures OneRowEach(next.users, sheet)
  {
    hide SheetValue, PullColumns, PulledRow;
  }

  lemma UsersAgain(env: Env, next: Db, cols: seq<Column>, sheet: Sheet, users: map<string, User>)
    requires NothingToWrite(env, next, cols, sheet) && Merges(env, next, cols, sheet, users)
    ensures users == next.users
  {
    hide SheetValue, RowWrites, Merged;
    forall number | number in next.users ensures users[number] == next.users[number] {
      if HasRow(next.users, sheet, number) {
        var i :| 0 <= i < |sheet| && RowOf(next.users, sheet[i], number);
        MergedNothing(env, next.users[number], sheet[i]);
      }
    }
  }

  // ---- The exception -------------------------------------------------------------------------------------

  lemma {:induction false} ReportsOf(env: Env, db: Db, cols: seq<Column>, sheet: Sheet, number: string, c: Column)
    requires number in db.users && !c.Other?
    ensures forall k | k in AllReports(env, db, cols, sheet) && k.number == number && k.field == c ::
              k.dbValue == DbFieldValue(env, db.users[number], c)
  {
    hide SheetValue, DbFieldValue, Decide;
    if sheet != [] {
      var row := sheet[|sheet| - 1];
      ReportsOf(env, db, cols, sheet[..|sheet| - 1], number, c);
      if IsLive(db.users, RowNumber(row)) {
        ReportedConflictsAre(env, RowNumber(row), db.users[RowNumber(row)], row, MetaOf(db.meta, RowNumber(row)), cols);
      }
    }
  }

  lemma {:induction false} ReportedInAll(env: Env, db: Db, cols: seq<Column>, sheet: Sheet, i: nat, number: string,
                                         c: Column)
    requires i < |sheet| && RowOf(db.users, sheet[i], number) && c in cols
    requires Reports(FirstDecision(env, db, number, sheet[i], c))
    ensures FieldConflict(env, number, db.users[number], sheet[i], c) in AllReports(env, db, cols, sheet)
  {
    hide SheetValue, DbFieldValue, Decide;
    if i < |sheet| - 1 {
      ReportedInAll(env, db, cols, sheet[..|sheet| - 1], i, number, c);
    } else {
      ReportedConflictsAre(env, number, db.users[number], sheet[i], MetaOf(db.meta, number), cols);
    }
  }

  lemma PendingInjective(a: seq<Conflict>, b: seq<Conflict>)
    requires Pending(a) == Pending(b)
    ensures a == b
  {
    assert |a| == |Pending(a)| == |Pending(b)| == |b|;
    forall i | 0 <= i < |a| ensures a[i] == b[i] {
      assert Pending(a)[i] == ConflictRow(a[i], None) && Pending(b)[i] == ConflictRow(b[i], None);
    }
  }

  lemma FieldTextIsSome(env: Env, u: User, c: Column)
    requires Writable(c)
    ensures DbFieldValue(env, u, c) == Some(FieldText(env, u, c))
  {
  }

  lemma MaskedRowReportsOtherwise(env: Env, db: Db, m: Mappings, sheet: Sheet, next: Db, i: nat, number: string)
    requires i < |sheet| && RowOf(db.users, sheet[i], number) && Masks(env, db, m, number, sheet[i])
    requires Pulled(env, db, m, sheet, next)
    ensures AllReports(env, next, PullColumns(m), sheet) != AllReports(env, db, PullColumns(m), sheet)
  {
    hide SheetValue, PullColumns, AllReports, MergedMeta, Accepts, OnlySheetChanged, Decide, MergedUser;
    PullColumnsAre(m);
    assert PulledRow(env, db, m, next, number, sheet[i]);
    ReportedInAll(env, db, PullColumns(m), sheet, i, number, EmploymentType);
    WriteDecision(env, db, number, sheet[i], EmploymentType);
    MergedText(env, db, m, number, sheet[i], EmploymentType);
    ReportsOf(env, next, PullColumns(m), sheet, number, EmploymentType);
    var k := FieldConflict(env, number, db.users[number], sheet[i], EmploymentType);
    assert k.number == number && k.field == EmploymentType && k.dbValue == Some("");
    FieldTextIsSome(env, next.users[number], EmploymentType);
    assert k !in AllReports(env, next, PullColumns(m), sheet);
  }

  lemma NotQuietUnderMask(env: Env, db: Db, sheet: Sheet, m: Mappings, t: int)
    requires Pull(env, db, sheet, m).1.Completed? && AnyMask(env, db, m, sheet)
    ensures !Quiet(env, db, sheet, m, t)
  {
    hide SheetValue, PullColumns, AllReports, MergedMeta, Pull, Decide, Masks, Pulled, Merges, OneRowEach, Pending;
    var next, cols := Pull(env, db, sheet, m).0, PullColumns(m);
    CompletedPull(env, db, sheet, m);
    var i, number :| 0 <= i < |sheet| && RowOf(db.users, sheet[i], number) && Masks(env, db, m, number, sheet[i]);
    MaskedRowReportsOtherwise(env, db, m, sheet, next, i, number);
    var first, second := AllReports(env, db, cols, sheet), AllReports(env, next, cols, sheet);
    assert Pending(first) != Pending(second) by {
      if Pending(first) == Pending(second) { PendingInjective(first, second); }
    }
    var again := Pull(env.(now := t), next, sheet, m);
    SheetAtAnyTime(env, t, next, sheet, cols);
    if again.1.Completed? {
      CompletedPullMerges(env.(now := t), next, sheet, m);
      assert again.0.conflicts[|next.conflicts|..] == Pending(second);
      assert (next.conflicts + Pending(first))[|next.conflicts|..] == Pending(first);
    }
  }

  // ---- A pull that throws -------------------------------------------------------------------------------

  lemma SameLiveUsers(env: Env, db: Db, sheet: Sheet, m: Mappings)
    ensures var next := Pull(env, db, sheet, m).0;
            && next.users.Keys == db.users.Keys
            && (forall number :: IsLive(next.users, number) <==> IsLive(db.users, number))
            && (OneRowEach(next.users, sheet) <==> OneRowEach(db.users, sheet))
  {
    hide Pull, SheetValue, ChangedExplained, StampExplained, ProfileOf;
    PullOnlyAppliesEdits(env, db, sheet, m);
    var next := Pull(env, db, sheet, m).0;
    forall number
      ensures IsLive(next.users, number) <==> IsLive(db.users, number)
    {
      if number in db.users {
        assert SameElsewhere(db.users[number], next.users[number]);
      }
    }
  }

  /** The row that threw writes its phone again. */
  lemma ThrowingRowWritesAgain(env: Env, db: Db, m: Mappings, next: Db, number: string, row: Cells)
    requires number in db.users && PhoneEdit(env, db, m, row, number) && number in next.users && next.meta == db.meta
    requires next.users[number] == ThrowingUser(env, db, m, number, row)
    ensures RowOf(next.users, row, number) && RowWrites(env, next, PullColumns(m), number, row) != []
  {
    hide SheetValue, PullColumns, Accepts, RowWrites;
    assert Applies(env, next, m, number, row, Phone);
    WritesAre(env, next, m, number, row, Phone);
  }

  lemma {:induction false} SomeWrites(env: Env, db: Db, cols: seq<Column>, sheet: Sheet, i: nat, number: string)
    requires i < |sheet| && RowOf(db.users, sheet[i], number) && RowWrites(env, db, cols, number, sheet[i]) != []
    ensures AllWrites(env, db, cols, sheet) > 0
  {
    hide SheetValue, RowWrites;
    if i < |sheet| - 1 {
      SomeWrites(env, db, cols, sheet[..|sheet| - 1], i, number);
    }
  }

  lemma ObstructedIsNotQuiet(env: Env, db: Db, sheet: Sheet, m: Mappings, t: int)
    requires !Unobstructed(env, db, m, sheet)
    ensures !Quiet(env, db, sheet, m, t)
  {
    hide SheetValue, PullColumns, PullRows, OneRowEach, PhonesFree, NamesTwice, Pending, ThrowingUser, RowWrites,
         AllReports, Merges, AllWrites, Upsert, MergedMeta, PhoneFree, PhoneEdit;
    var next, later := Pull(env, db, sheet, m).0, env.(now := t);
    SameLiveUsers(env, db, sheet, m);
    PullCompletesIff(later, next, sheet, m);
    if OneRowEach(db.users, sheet) {
      var j, number := ThrownPullLeaves(env, db, m, sheet);
      RowsFailIff(env, db, m, sheet);
      assert next.meta == db.meta && next.users[number] == ThrowingUser(env, db, m, number, sheet[j]);
      hide Pull;
      ThrowingRowWritesAgain(env, db, m, next, number, sheet[j]);
      RowAtAnyTime(env, t, next, number, sheet[j], PullColumns(m));
      SomeWrites(later, next, PullColumns(m), sheet, j, number);
      if Unobstructed(later, next, m, sheet) {
        PullIsThreeWayMerge(later, next, sheet, m);
      }
    }
  }

  /**
   * After a pull, a second one at any time writes nothing, changes no metadata and reports the same conflicts, exactly
   * when nothing obstructed the first and none of its rows inserted a profile under an Employment Type conflict: the
   * inserted row's default then replaces the value the conflict was about.
   */
  lemma PullReachesFixpoint(env: Env, db: Db, sheet: Sheet, m: Mappings, t: int)
    ensures Quiet(env, db, sheet, m, t) <==> Unobstructed(env, db, m, sheet) && !AnyMask(env, db, m, sheet)
  {
    hide Quiet, Unobstructed, AnyMask, Pull;
    PullCompletesIff(env, db, sheet, m);
    if !Unobstructed(env, db, m, sheet) {
      ObstructedIsNotQuiet(env, db, sheet, m, t);
    } else if AnyMask(env, db, m, sheet) {
      NotQuietUnderMask(env, db, sheet, m, t);
    } else {
      QuietWithoutMask(env, db, sheet, m, t);
    }
  }
}
