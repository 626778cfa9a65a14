/** When a pull completes, judged by the database and the sheet before it; and what it then amounts to. */
module ZohoCompletion {
  import opened Common
  import opened Text
  import opened ZohoRecords
  import opened ZohoPull
  import opened ZohoMerge
  import opened ZohoPullLaws

  // ---- Phone numbers ------------------------------------------------------------------------

  /** The row edits the phone of a live user, and the edit is accepted. */
  ghost predicate PhoneEdit(env: Env, db: Db, m: Mappings, row: Cells, number: string) {
    RowOf(db.users, row, number) && Applies(env, db, m, number, row, Phone)
  }

  /**
   * Nobody but `number` was given `value` by the rows before, and whoever has it in the database lost it to one of
   * them.
   */
  ghost predicate PhoneFree(env: Env, db: Db, m: Mappings, before: Sheet, number: string, value: string) {
    && (forall i, other | 0 <= i < |before| && other != number && PhoneEdit(env, db, m, before[i], other) ::
          SheetValue(before[i], Phone) != value)
    && (forall other | other in db.users && other != number && db.users[other].phone == Some(value) ::
          exists i :: 0 <= i < |before| && PhoneEdit(env, db, m, before[i], other))
  }

  /** Every accepted phone edit finds its number free when its turn comes. */
  ghost predicate PhonesFree(env: Env, db: Db, m: Mappings, sheet: Sheet) {
    forall j, number | 0 <= j < |sheet| && PhoneEdit(env, db, m, sheet[j], number) ::
      PhoneFree(env, db, m, sheet[..j], number, SheetValue(sheet[j], Phone))
  }

  /** A row throws exactly when it writes the phone and another user holds the number. */
  lemma {:induction false} RowFailsIff(env: Env, users: map<string, User>, number: string, snapshot: User, row: Cells,
                                       meta: Option<Meta>, cols: seq<Column>)
    requires number in users
    ensures PullRow(env, users, number, snapshot, row, meta, cols).failed <==>
        Phone in WrittenColumns(env, snapshot, row, meta, cols) && PhoneTaken(users, number, SheetValue(row, Phone))
  {
    hide Decide, SheetValue, Written, PhoneTaken, FieldConflict;
    if cols != [] {
      RowFailsIff(env, users, number, snapshot, row, meta, cols[..|cols| - 1]);
    }
  }

  /** Who holds which phone once some rows are merged. */
  lemma MergedPhone(env: Env, db: Db, m: Mappings, init: Sheet, users: map<string, User>, other: string)
    requires Merges(env, db, PullColumns(m), init, users) && other in db.users
    ensures (forall i | 0 <= i < |init| && PhoneEdit(env, db, m, init[i], other) ::
               users[other].phone == Some(SheetValue(init[i], Phone)))
    ensures (forall i | 0 <= i < |init| :: !PhoneEdit(env, db, m, init[i], other)) ==>
              users[other].phone == db.users[other].phone
  {
    hide SheetValue, Applies, RowWrites, PullColumns, MergedProfile;
    forall i | 0 <= i < |init|
      ensures Phone in RowWrites(env, db, PullColumns(m), other, init[i]) <==>
          Applies(env, db, m, other, init[i], Phone)
    {
      WritesAre(env, db, m, other, init[i], Phone);
    }
  }

  lemma TakenIff(env: Env, db: Db, m: Mappings, init: Sheet, users: map<string, User>, number: string, value: string)
    requires Merges(env, db, PullColumns(m), init, users)
    ensures PhoneTaken(users, number, value) <==> !PhoneFree(env, db, m, init, number, value)
  {
    hide Merges, PhoneEdit, PullColumns, SheetValue;
    MergedKeys(env, db, PullColumns(m), init, users);
    if PhoneTaken(users, number, value) {
      var other :| other in users.Keys && other != number && users[other].phone == Some(value);
      MergedPhone(env, db, m, init, users, other);
      if i :| 0 <= i < |init| && PhoneEdit(env, db, m, init[i], other) {
        assert SheetValue(init[i], Phone) == value;
      } else {
        assert db.users[other].phone == Some(value);
      }
      assert !PhoneFree(env, db, m, init, number, value);
    } else {
      forall i, other | 0 <= i < |init| && other != number && PhoneEdit(env, db, m, init[i], other)
        ensures SheetValue(init[i], Phone) != value
      {
        EditorExists(env, db, m, init[i], other);
        MergedPhone(env, db, m, init, users, other);
      }
      forall other | other in db.users && other != number && db.users[other].phone == Some(value)
        ensures exists i :: 0 <= i < |init| && PhoneEdit(env, db, m, init[i], other)
      {
        MergedPhone(env, db, m, init, users, other);
      }
    }
  }

  lemma MergedKeys(env: Env, db: Db, cols: seq<Column>, sheet: Sheet, users: map<string, User>)
    requires Merges(env, db, cols, sheet, users)
    ensures users.Keys == db.users.Keys
  {
  }

  lemma EditorExists(env: Env, db: Db, m: Mappings, row: Cells, number: string)
    requires PhoneEdit(env, db, m, row, number)
    ensures number in db.users
  {
  }

  lemma FreeOneMore(env: Env, db: Db, m: Mappings, init: Sheet, row: Cells)
    ensures PhonesFree(env, db, m, init + [row]) <==>
        && PhonesFree(env, db, m, init)
        && (PhoneEdit(env, db, m, row, RowNumber(row)) ==>
              PhoneFree(env, db, m, init, RowNumber(row), SheetValue(row, Phone)))
  {
    hide SheetValue, PhoneFree, Applies;
    var sheet := init + [row];
    assert sheet[..|init|] == init && sheet[|init|] == row;
    forall j | 0 <= j < |init|
      ensures sheet[j] == init[j] && sheet[..j] == init[..j]
    {
    }
    if PhonesFree(env, db, m, sheet) {
      forall j, number | 0 <= j < |init| && PhoneEdit(env, db, m, init[j], number)
        ensures PhoneFree(env, db, m, init[..j], number, SheetValue(init[j], Phone))
      {
        assert PhoneEdit(env, db, m, sheet[j], number);
      }
    }
  }

  lemma {:induction false} RowsFailIff(env: Env, db: Db, m: Mappings, sheet: Sheet)
    requires OneRowEach(db.users, sheet)
    ensures PullRows(env, db.users, db.meta, PullColumns(m), sheet).failed <==> !PhonesFree(env, db, m, sheet)
  {
    hide PullRow, SheetValue, OneRowEach, PhoneFree, PhoneTaken, PullColumns, PhonesFree, Merges, Applies, RowWrites;
    var cols := PullColumns(m);
    if sheet == [] {
      assert PhonesFree(env, db, m, []) by { EmptySheetIsFree(env, db, m); }
    } else {
      var init, row := sheet[..|sheet| - 1], sheet[|sheet| - 1];
      var number := RowNumber(row);
      assert sheet == init + [row];
      OneRowEachPrefix(db.users, init, row);
      RowsFailIff(env, db, m, init);
      FreeOneMore(env, db, m, init, row);
      var r := PullRows(env, db.users, db.meta, cols, init);
      if !r.failed && RowOf(db.users, row, number) {
        PullColumnsAre(m);
        PullMergesUsers(env, db, cols, init);
        TakenIff(env, db, m, init, r.users, number, SheetValue(row, Phone));
        WritesAre(env, db, m, number, row, Phone);
        RowFailsIff(env, r.users, number, db.users[number], row, MetaOf(db.meta, number), cols);
        assert Phone in RowWrites(env, db, cols, number, row)
          <==> Phone in WrittenColumns(env, db.users[number], row, MetaOf(db.meta, number), cols) by {
          RowWritesAre(env, db, cols, number, row);
        }
      }
    }
  }

  lemma EmptySheetIsFree(env: Env, db: Db, m: Mappings)
    ensures PhonesFree(env, db, m, [])
  {
  }

  lemma RowWritesAre(env: Env, db: Db, cols: seq<Column>, number: string, row: Cells)
    requires number in db.users
    ensures RowWrites(env, db, cols, number, row)
        == WrittenColumns(env, db.users[number], row, MetaOf(db.meta, number), cols)
  {
  }

  // ---- Completion ----------------------------------------------------------------------------------

  /** What can be checked before a pull: each live user has one record at most, and phone edits find free numbers. */
  ghost predicate Unobstructed(env: Env, db: Db, m: Mappings, sheet: Sheet) {
    OneRowEach(db.users, sheet) && PhonesFree(env, db, m, sheet)
  }

  /** Under any mapping a pull completes exactly when nothing obstructs it. */
  lemma PullCompletesIff(env: Env, db: Db, sheet: Sheet, m: Mappings)
    ensures Pull(env, db, sheet, m).1.Completed? <==> Unobstructed(env, db, m, sheet)
  {
    hide SheetValue, PullColumns, PullRows, OneRowEach, NamesTwice, PhonesFree, AllUpdates, AllReports;
    if OneRowEach(db.users, sheet) {
      RowsFailIff(env, db, m, sheet);
    }
    if !PullRows(env, db.users, db.meta, PullColumns(m), sheet).failed {
      PullReports(env, db, PullColumns(m), sheet);
      NamesTwiceIs(env, db, PullColumns(m), sheet);
    }
  }

  /** Without pulled phone numbers, a pull completes exactly when each live user has at most one record. */
  lemma CompletesWithoutPhone(env: Env, db: Db, sheet: Sheet, m: Mappings)
    requires !PullEnabled(DirectionOf(m, Phone))
    ensures Pull(env, db, sheet, m).1.Completed? <==> OneRowEach(db.users, sheet)
  {
    hide SheetValue, OneRowEach, Pull;
    PullCompletesIff(env, db, sheet, m);
  }

  /** How many values the rows of live users write. */
  ghost function AllWrites(env: Env, db: Db, cols: seq<Column>, sheet: Sheet): nat {
    if sheet == [] then 0
    else
      var row := sheet[|sheet| - 1];
      var before := AllWrites(env, db, cols, sheet[..|sheet| - 1]);
      if RowOf(db.users, row, RowNumber(row)) then before + |RowWrites(env, db, cols, RowNumber(row), row)| else before
  }

  lemma {:induction false} PullWrites(env: Env, db: Db, cols: seq<Column>, sheet: Sheet)
    requires !PullRows(env, db.users, db.meta, cols, sheet).failed
    ensures PullRows(env, db.users, db.meta, cols, sheet).writes == AllWrites(env, db, cols, sheet)
  {
    hide PullRow, SheetValue, Decide, Orphan;
    if sheet != [] {
      var init, row := sheet[..|sheet| - 1], sheet[|sheet| - 1];
      PullWrites(env, db, cols, init);
      var r, number := PullRows(env, db.users, db.meta, cols, init), RowNumber(row);
      if RowOf(db.users, row, number) {
        RowResultIs(env, r.users, number, db.users[number], row, MetaOf(db.meta, number), cols);
      }
    }
  }

  /** Under any mapping, an unobstructed pull is the three-way merge of every live user's one record. */
  lemma PullIsThreeWayMerge(env: Env, db: Db, sheet: Sheet, m: Mappings)
    requires Unobstructed(env, db, m, sheet)
    ensures var cols, (after, outcome) := PullColumns(m), Pull(env, db, sheet, m);
            && outcome == Completed(AllWrites(env, db, cols, sheet), |AllReports(env, db, cols, sheet)|)
            && Merges(env, db, cols, sheet, after.users)
            && after.conflicts == db.conflicts + Pending(AllReports(env, db, cols, sheet))
            && (forall number | !HasRow(db.users, sheet, number) ::
                MetaOf(after.meta, number) == MetaOf(db.meta, number))
            && (forall i, number | 0 <= i < |sheet| && RowOf(db.users, sheet[i], number) ::
                  MetaOf(after.meta, number) == Some(MergedMeta(env, db, cols, number, sheet[i])))
  {
    hide SheetValue, PullColumns, PullRows, NamesTwice, Unobstructed, AllReports, AllWrites, Merges, MergedMeta, HasRow,
         Upsert;
    PullCompletesIff(env, db, sheet, m);
    CompletedPullMerges(env, db, sheet, m);
    PullReports(env, db, PullColumns(m), sheet);
    PullWrites(env, db, PullColumns(m), sheet);
  }
}
