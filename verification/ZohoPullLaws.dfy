/** The laws of a whole pull: it is the three-way merge, and repeating it changes nothing. */
module ZohoPullLaws {
  import opened Common
  import opened Text
  import opened ZohoRecords
  import opened ZohoPull
  import opened ZohoMerge

  // ---- One user of one sheet row ------------------------------------------------------------

  ghost predicate RowOf(before: map<string, User>, row: Cells, number: string) {
    RowNumber(row) == number && number != "" && IsLive(before, number)
  }

  ghost function RowWrites(env: Env, db: Db, cols: seq<Column>, number: string, row: Cells): seq<Column>
    requires number in db.users
  {
    WrittenColumns(env, db.users[number], row, MetaOf(db.meta, number), cols)
  }

  ghost function MergedUser(env: Env, db: Db, cols: seq<Column>, number: string, row: Cells): User
    requires number in db.users
  {
    Merged(env, db.users[number], row, RowWrites(env, db, cols, number, row))
  }

  ghost function RowReports(env: Env, db: Db, cols: seq<Column>, number: string, row: Cells): seq<Conflict>
    requires number in db.users
  {
    ReportedConflicts(env, number, db.users[number], row, MetaOf(db.meta, number), cols)
  }

  ghost function MergedMeta(env: Env, db: Db, cols: seq<Column>, number: string, row: Cells): Meta
    requires number in db.users
  {
    var old_ := MetaOf(db.meta, number);
    Meta((if old_.Some? then old_.value.version else 0)
         + (if RowWrites(env, db, cols, number, row) != [] then 1 else 0),
         BaselineAfter(env, db.users[number], row, old_, cols),
         if RowReports(env, db, cols, number, row) != [] then "conflict" else "synced",
         if old_.Some? then old_.value.hash else None)
  }

  ghost function FirstDecision(env: Env, db: Db, number: string, row: Cells, c: Column): Decision
    requires number in db.users
  {
    Decide(env, db.users[number], row, MetaOf(db.meta, number), c)
  }

  // ---- A sheet with one row per live user -----------------------------------------------------

  ghost predicate OneRowEach(before: map<string, User>, sheet: Sheet) {
    forall i, j :: 0 <= i < j < |sheet| && RowNumber(sheet[i]) == RowNumber(sheet[j])
      ==> RowNumber(sheet[i]) == "" || !IsLive(before, RowNumber(sheet[i]))
  }

  ghost predicate HasRow(before: map<string, User>, sheet: Sheet, number: string) {
    exists i :: 0 <= i < |sheet| && RowOf(before, sheet[i], number)
  }

  /** `users` holds the merge of every live user's row, and every other user as before. */
  ghost predicate Merges(env: Env, db: Db, cols: seq<Column>, sheet: Sheet, users: map<string, User>) {
    && users.Keys == db.users.Keys
    && (forall number | number in db.users && !HasRow(db.users, sheet, number) :: users[number] == db.users[number])
    && (forall i, number | 0 <= i < |sheet| && RowOf(db.users, sheet[i], number) ::
          users[number] == MergedUser(env, db, cols, number, sheet[i]))
  }

  ghost function AllReports(env: Env, db: Db, cols: seq<Column>, sheet: Sheet): seq<Conflict> {
    if sheet == [] then []
    else
      var row := sheet[|sheet| - 1];
      var before := AllReports(env, db, cols, sheet[..|sheet| - 1]);
      if RowNumber(row) == "" then before
      else if IsLive(db.users, RowNumber(row)) then before + RowReports(env, db, cols, RowNumber(row), row)
      else if Orphan(env, row) then before + [OrphanConflict(env, row)]
      else before
  }

  ghost function AllUpdates(env: Env, db: Db, cols: seq<Column>, sheet: Sheet): seq<MetaUpdate> {
    if sheet == [] then []
    else
      var row := sheet[|sheet| - 1];
      var before := AllUpdates(env, db, cols, sheet[..|sheet| - 1]);
      if RowOf(db.users, row, RowNumber(row))
      then before + [MetaUpdate(RowNumber(row), MergedMeta(env, db, cols, RowNumber(row), row))]
      else before
  }

  // ---- The pull loop -----------------------------------------------------------------------------

  lemma {:induction false} PullReports(env: Env, db: Db, cols: seq<Column>, sheet: Sheet)
    requires !PullRows(env, db.users, db.meta, cols, sheet).failed
    ensures PullRows(env, db.users, db.meta, cols, sheet).conflicts == AllReports(env, db, cols, sheet)
    ensures PullRows(env, db.users, db.meta, cols, sheet).updates == AllUpdates(env, db, cols, sheet)
  {
    hide PullRow, Orphan, OrphanConflict, SheetValue, Decide;
    if sheet != [] {
      var init, row := sheet[..|sheet| - 1], sheet[|sheet| - 1];
      PullReports(env, db, cols, init);
      var r, number := PullRows(env, db.users, db.meta, cols, init), RowNumber(row);
      if RowOf(db.users, row, number) {
        RowResultIs(env, r.users, number, db.users[number], row, MetaOf(db.meta, number), cols);
      }
    }
  }

  ghost predicate Names(updates: seq<MetaUpdate>, number: string) {
    exists k :: 0 <= k < |updates| && updates[k].number == number
  }

  lemma {:induction false} UpdatesName(env: Env, db: Db, cols: seq<Column>, sheet: Sheet, number: string)
    ensures HasRow(db.users, sheet, number) <==> Names(AllUpdates(env, db, cols, sheet), number)
  {
    hide SheetValue, MergedMeta;
    if sheet != [] {
      var init, row := sheet[..|sheet| - 1], sheet[|sheet| - 1];
      UpdatesName(env, db, cols, init, number);
      assert HasRow(db.users, sheet, number) <==> HasRow(db.users, init, number) || RowOf(db.users, row, number) by {
        assert forall i :: 0 <= i < |init| ==> sheet[i] == init[i];
      }
      var us := AllUpdates(env, db, cols, init);
      var all := AllUpdates(env, db, cols, sheet);
      assert forall k :: 0 <= k < |us| ==> all[k] == us[k];
      if RowOf(db.users, row, number) {
        assert all[|us|].number == number;
      }
    }
  }

  /** The upsert statement accepts the batch exactly when the sheet has one row per live user. */
  lemma {:induction false} NamesTwiceIs(env: Env, db: Db, cols: seq<Column>, sheet: Sheet)
    ensures NamesTwice(AllUpdates(env, db, cols, sheet)) <==> !OneRowEach(db.users, sheet)
  {
    hide SheetValue, MergedMeta;
    if sheet != [] {
      var init, row := sheet[..|sheet| - 1], sheet[|sheet| - 1];
      var number := RowNumber(row);
      NamesTwiceIs(env, db, cols, init);
      UpdatesName(env, db, cols, init, number);
      var us, all := AllUpdates(env, db, cols, init), AllUpdates(env, db, cols, sheet);
      assert forall k :: 0 <= k < |us| ==> all[k] == us[k];
      assert forall i :: 0 <= i < |init| ==> sheet[i] == init[i];
      assert OneRowEach(db.users, sheet) <==> OneRowEach(db.users, init) && !HasRow(db.users, init, number) by {
        if HasRow(db.users, init, number) {
          var i :| 0 <= i < |init| && RowOf(db.users, init[i], number);
          assert RowNumber(sheet[i]) == RowNumber(sheet[|init|]);
        }
      }
      if HasRow(db.users, init, number) {
        var k :| 0 <= k < |us| && us[k].number == number;
        assert all[k].number == all[|us|].number;
      }
    }
  }

  lemma {:induction false} PullMergesUsers(env: Env, db: Db, cols: seq<Column>, sheet: Sheet)
    requires InSheetOrder(cols) && OneRowEach(db.users, sheet)
    requires !PullRows(env, db.users, db.meta, cols, sheet).failed
    ensures Merges(env, db, cols, sheet, PullRows(env, db.users, db.meta, cols, sheet).users)
  {
    hide PullRow, SheetValue, MergedUser, InSheetOrder, Merges, OneRowEach;
    if sheet == [] {
      NothingMerged(env, db, cols);
    } else {
      var init, row := sheet[..|sheet| - 1], sheet[|sheet| - 1];
      var number := RowNumber(row);
      assert sheet == init + [row];
      OneRowEachPrefix(db.users, init, row);
      PullMergesUsers(env, db, cols, init);
      var r := PullRows(env, db.users, db.meta, cols, init);
      MergesOneMore(env, db, cols, init, row, r.users);
      if RowOf(db.users, row, number) {
        NotYetMerged(env, db, cols, init, number, r.users);
        RowMerges(env, db, r.users, cols, number, row);
      }
    }
  }

  lemma NothingMerged(env: Env, db: Db, cols: seq<Column>)
    ensures Merges(env, db, cols, [], db.users)
  {
  }

  lemma OneRowEachPrefix(before: map<string, User>, init: Sheet, row: Cells)
    requires OneRowEach(before, init + [row])
    ensures OneRowEach(before, init)
    ensures IsLive(before, RowNumber(row)) && RowNumber(row) != "" ==> !HasRow(before, init, RowNumber(row))
  {
    hide SheetValue;
    var sheet := init + [row];
    assert forall i :: 0 <= i < |init| ==> sheet[i] == init[i];
    assert sheet[|init|] == row;
  }

  lemma NotYetMerged(env: Env, db: Db, cols: seq<Column>, init: Sheet, number: string, users: map<string, User>)
    requires Merges(env, db, cols, init, users) && number in db.users && !HasRow(db.users, init, number)
    ensures number in users && users[number] == db.users[number]
  {
  }

  lemma MergesOneMore(env: Env, db: Db, cols: seq<Column>, init: Sheet, row: Cells, users: map<string, User>)
    requires Merges(env, db, cols, init, users) && OneRowEach(db.users, init + [row])
    ensures var number := RowNumber(row);
            Merges(env, db, cols, init + [row],
                   if RowOf(db.users, row, number) then users[number := MergedUser(env, db, cols, number, row)]
                   else users)
  {
    hide SheetValue, MergedUser, OneRowEach, RowNumber;
    OneRowEachPrefix(db.users, init, row);
    var sheet, number := init + [row], RowNumber(row);
    var next := if RowOf(db.users, row, number) then users[number := MergedUser(env, db, cols, number, row)] else users;
    forall n | n in db.users && !HasRow(db.users, sheet, n)
      ensures next[n] == db.users[n]
    {
      HasRowOneMore(db.users, init, row, n);
    }
    forall i, n | 0 <= i < |sheet| && RowOf(db.users, sheet[i], n)
      ensures next[n] == MergedUser(env, db, cols, n, sheet[i])
    {
      if i < |init| {
        assert RowOf(db.users, init[i], n);
        assert HasRow(db.users, init, n);
      }
    }
  }

  lemma HasRowOneMore(before: map<string, User>, init: Sheet, row: Cells, number: string)
    ensures HasRow(before, init + [row], number) <==> HasRow(before, init, number) || RowOf(before, row, number)
  {
    hide RowOf;
    var sheet := init + [row];
    if HasRow(before, init, number) {
      var i :| 0 <= i < |init| && RowOf(before, init[i], number);
      assert RowOf(before, sheet[i], number);
    }
    if RowOf(before, row, number) {
      assert RowOf(before, sheet[|init|], number);
    }
  }

  lemma RowMerges(env: Env, db: Db, users: map<string, User>, cols: seq<Column>, number: string, row: Cells)
    requires InSheetOrder(cols) && number in users && number in db.users && users[number] == db.users[number]
    requires !PullRow(env, users, number, db.users[number], row, MetaOf(db.meta, number), cols).failed
    ensures PullRow(env, users, number, db.users[number], row, MetaOf(db.meta, number), cols).user
         == MergedUser(env, db, cols, number, row)
  {
    hide Merged, SheetValue, DbFieldValue;
    var meta := MetaOf(db.meta, number);
    RowResultIs(env, users, number, db.users[number], row, meta, cols);
    WrittenColumnsAre(env, db.users[number], row, meta, cols);
    WriteAllMerges(env, db.users[number], row, WrittenColumns(env, db.users[number], row, meta, cols));
  }

  // ---- Metadata -----------------------------------------------------------------------------------

  lemma {:induction false} UpsertLookup(meta: map<string, Meta>, updates: seq<MetaUpdate>, number: string)
    requires !NamesTwice(updates)
    ensures !Names(updates, number) ==> MetaOf(Upsert(meta, updates), number) == MetaOf(meta, number)
    ensures forall k :: 0 <= k < |updates| && updates[k].number == number
              ==> MetaOf(Upsert(meta, updates), number) == Some(updates[k].meta)
  {
    if updates != [] {
      var init := updates[..|updates| - 1];
      assert forall k :: 0 <= k < |init| ==> updates[k] == init[k];
      UpsertLookup(meta, init, number);
    }
  }

  lemma {:induction false} UpdateOfRow(env: Env, db: Db, cols: seq<Column>, sheet: Sheet, i: nat, number: string)
    requires i < |sheet| && RowOf(db.users, sheet[i], number)
    ensures MetaUpdate(number, MergedMeta(env, db, cols, number, sheet[i])) in AllUpdates(env, db, cols, sheet)
  {
    hide SheetValue, MergedMeta;
    if i < |sheet| - 1 {
      UpdateOfRow(env, db, cols, sheet[..|sheet| - 1], i, number);
    }
  }

  // ---- The laws --------------------------------------------------------------------------------------

  /** Only the sheet changed since the last sync: a baseline that is missing counts as the database value. */
  ghost predicate OnlySheetChanged(env: Env, db: Db, number: string, row: Cells, c: Column)
    requires number in db.users && Writable(c)
  {
    var dbText, sheetText := FieldText(env, db.users[number], c), SheetValue(row, c);
    && number in db.meta && dbText != sheetText
    && (c in db.meta[number].baseline ==> db.meta[number].baseline[c] == dbText)
  }

  ghost predicate Applies(env: Env, db: Db, m: Mappings, number: string, row: Cells, c: Column)
    requires number in db.users
  {
    && Writable(c) && PullEnabled(DirectionOf(m, c))
    && OnlySheetChanged(env, db, number, row, c) && Accepts(env, c, SheetValue(row, c))
  }

  /** The row gives the user an employee profile the user did not have. */
  ghost predicate InsertsNewProfile(env: Env, db: Db, m: Mappings, number: string, row: Cells)
    requires number in db.users
  {
    db.users[number].profile.None? && exists c :: InsertsProfile(c) && Applies(env, db, m, number, row, c)
  }

  /** What an accepted sheet value reads back as. */
  ghost function Normalised(env: Env, u: User, c: Column, value: string, hasProfile: bool): string {
    match c
    case Status => env.upper(value)
    case Manager => env.managerEmail(value).GetOr("")
    case Role => RoleText(env, u.roles + {value})
    case EmploymentType => if hasProfile then env.lower(value) else ""
    case _ => value
  }

  lemma WritesAre(env: Env, db: Db, m: Mappings, number: string, row: Cells, c: Column)
    requires number in db.users
    ensures c in RowWrites(env, db, PullColumns(m), number, row) <==> Applies(env, db, m, number, row, c)
  {
    hide SheetValue, Accepts, DbFieldValue, Writable, PullColumns, Decide;
    PullColumnsAre(m);
    WrittenColumnsAre(env, db.users[number], row, MetaOf(db.meta, number), PullColumns(m));
    WriteDecision(env, db, number, row, c);
  }

  lemma WriteDecision(env: Env, db: Db, number: string, row: Cells, c: Column)
    requires number in db.users
    ensures Decide(env, db.users[number], row, MetaOf(db.meta, number), c).Write? <==>
        Writable(c) && OnlySheetChanged(env, db, number, row, c) && Accepts(env, c, SheetValue(row, c))
    ensures Writable(c) ==> !c.Other?
  {
    hide SheetValue, Accepts;
  }

  /**
   * The merged text of every writable field: the accepted value if only the sheet changed, the column
   * default if the row had to insert the employee profile, the database value in every other case.
   */
  lemma MergedText(env: Env, db: Db, m: Mappings, number: string, row: Cells, c: Column)
    requires number in db.users && Writable(c)
    ensures var u := db.users[number];
            FieldText(env, MergedUser(env, db, PullColumns(m), number, row), c)
            == if Applies(env, db, m, number, row, c)
               then Normalised(env, u, c, SheetValue(row, c),
                               u.profile.Some? || InsertsNewProfile(env, db, m, number, row))
               else if c == EmploymentType && InsertsNewProfile(env, db, m, number, row) then DEFAULT_EMPLOYMENT_STATUS
               else FieldText(env, u, c)
  {
    hide SheetValue, Applies, RowWrites, PullColumns, Decide, Accepts;
    WritesAre(env, db, m, number, row, c);
    WritesAre(env, db, m, number, row, Department);
    WritesAre(env, db, m, number, row, Designation);
    WritesAre(env, db, m, number, row, Manager);
    assert db.users[number].profile.None? ==>
        (InsertsNewProfile(env, db, m, number, row) <==>
         CreatesProfile(RowWrites(env, db, PullColumns(m), number, row))) by {
      assert InsertsProfile(Department) && InsertsProfile(Designation) && InsertsProfile(Manager);
    }
  }

  /** A pull that completes is the three-way merge of every live user's one row. */
  lemma CompletedPullMerges(env: Env, db: Db, sheet: Sheet, m: Mappings)
    requires Pull(env, db, sheet, m).1.Completed?
    ensures OneRowEach(db.users, sheet)
    ensures var cols, after := PullColumns(m), Pull(env, db, sheet, m).0;
            && Merges(env, db, cols, sheet, after.users)
            && after.conflicts == db.conflicts + Pending(AllReports(env, db, cols, sheet))
            && (forall number | !HasRow(db.users, sheet, number) ::
                MetaOf(after.meta, number) == MetaOf(db.meta, number))
            && (forall i, number | 0 <= i < |sheet| && RowOf(db.users, sheet[i], number) ::
                  MetaOf(after.meta, number) == Some(MergedMeta(env, db, cols, number, sheet[i])))
  {
    hide SheetValue, PullRows, MergedMeta, Upsert, NamesTwice, Names, PullColumns, Merges, OneRowEach;
    var cols := PullColumns(m);
    PullColumnsAre(m);
    var r := PullRows(env, db.users, db.meta, cols, sheet);
    PullReports(env, db, cols, sheet);
    NamesTwiceIs(env, db, cols, sheet);
    PullMergesUsers(env, db, cols, sheet);
    forall number ensures !HasRow(db.users, sheet, number)
                    ==> MetaOf(Upsert(db.meta, r.updates), number) == MetaOf(db.meta, number) {
      UpsertLookup(db.meta, r.updates, number);
      UpdatesName(env, db, cols, sheet, number);
    }
    forall i, number | 0 <= i < |sheet| && RowOf(db.users, sheet[i], number)
      ensures MetaOf(Upsert(db.meta, r.updates), number) == Some(MergedMeta(env, db, cols, number, sheet[i]))
    {
      UpsertLookup(db.meta, r.updates, number);
      UpdateOfRow(env, db, cols, sheet, i, number);
    }
  }
}
