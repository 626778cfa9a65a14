/** What every pull respects, also one that throws half-way: nothing changes without an accepted sheet edit. */
module ZohoPartialPull {
  import opened Common
  import opened Text
  import opened ZohoRecords
  import opened ZohoPull
  import opened ZohoMerge
  import opened ZohoPullLaws

  /** Equal outside the writable fields and the stamp of the last update. */
  ghost predicate SameElsewhere(a: User, b: User) {
    && a.email == b.email && a.mfaEnabled == b.mfaEnabled && a.failedLogins == b.failedLogins
    && a.createdAt == b.createdAt && a.lastLoginAt == b.lastLoginAt
    && a.deleted == b.deleted
    && ProfileOf(a).employeeId == ProfileOf(b).employeeId && ProfileOf(a).hireDate == ProfileOf(b).hireDate
    && (a.profile.Some? ==> b.profile.Some?)
  }

  /** Some row of a live user holds an accepted edit of the field, or inserts the profile the field defaults in. */
  ghost predicate Explained(env: Env, db: Db, m: Mappings, sheet: Sheet, number: string, c: Column)
    requires number in db.users
  {
    exists i :: 0 <= i < |sheet| && RowOf(db.users, sheet[i], number) && ExplainedBy(env, db, m, sheet[i], number, c)
  }

  ghost predicate ExplainedBy(env: Env, db: Db, m: Mappings, row: Cells, number: string, c: Column)
    requires number in db.users
  {
    Applies(env, db, m, number, row, c) || (c.EmploymentType? && InsertsNewProfile(env, db, m, number, row))
  }

  ghost predicate OnlyExplainedChanges(env: Env, db: Db, m: Mappings, sheet: Sheet, users: map<string, User>) {
    && users.Keys == db.users.Keys
    && (forall number | number in db.users :: SameElsewhere(db.users[number], users[number]))
    && (forall number, c | number in db.users && Writable(c) ::
          ChangedExplained(env, db, m, sheet, users[number], number, c))
    && (forall number | number in db.users :: StampExplained(env, db, m, sheet, users[number], number))
  }

  /** A user's stamp moves only to the time of the pull, and only for an accepted edit of the status or the phone. */
  ghost predicate StampExplained(env: Env, db: Db, m: Mappings, sheet: Sheet, u: User, number: string)
    requires number in db.users
  {
    u.updatedAt != db.users[number].updatedAt ==>
      u.updatedAt == env.now
          && (Explained(env, db, m, sheet, number, Status) || Explained(env, db, m, sheet, number, Phone))
  }

  ghost predicate ChangedExplained(env: Env, db: Db, m: Mappings, sheet: Sheet, u: User, number: string, c: Column)
    requires number in db.users && Writable(c)
  {
    FieldText(env, u, c) != FieldText(env, db.users[number], c) ==> Explained(env, db, m, sheet, number, c)
  }

  lemma MergedOnlyWrites(env: Env, u: User, row: Cells, ws: seq<Column>, c: Column)
    requires Writable(c)
    ensures SameElsewhere(u, Merged(env, u, row, ws))
    ensures FieldText(env, Merged(env, u, row, ws), c) != FieldText(env, u, c)
        ==> c in ws || (c.EmploymentType? && u.profile.None? && CreatesProfile(ws))
  {
    hide SheetValue;
  }

  /** One row, completed or not, changes its user only by accepted edits of that row. */
  lemma RowOnlyExplains(env: Env, db: Db, m: Mappings, users: map<string, User>, number: string, row: Cells, c: Column)
    requires number in db.users && number in users && SameElsewhere(db.users[number], users[number]) && Writable(c)
    ensures var u := PullRow(env, users, number, db.users[number], row, MetaOf(db.meta, number), PullColumns(m)).user;
            && SameElsewhere(db.users[number], u)
            && (FieldText(env, u, c) != FieldText(env, users[number], c) ==> ExplainedBy(env, db, m, row, number, c))
  {
    hide SheetValue, PullRow, Merged, DbFieldValue, Applies, Written, PullColumns, Decide;
    var cols, snapshot, meta := PullColumns(m), db.users[number], MetaOf(db.meta, number);
    PullColumnsAre(m);
    var done := RowStopsAt(env, users, number, snapshot, row, meta, cols);
    var ws := WrittenColumns(env, snapshot, row, meta, done);
    WrittenColumnsAre(env, snapshot, row, meta, done);
    WriteAllMerges(env, users[number], row, ws);
    MergedOnlyWrites(env, users[number], row, ws, c);
    forall d | d in ws ensures Applies(env, db, m, number, row, d) {
      WritesAre(env, db, m, number, row, d);
      WrittenColumnsAre(env, snapshot, row, meta, cols);
    }
    assert InsertsProfile(Department) && InsertsProfile(Designation) && InsertsProfile(Manager);
  }

  lemma RowOnlyStamps(env: Env, db: Db, m: Mappings, users: map<string, User>, number: string, row: Cells)
    requires number in db.users && number in users
    ensures var u := PullRow(env, users, number, db.users[number], row, MetaOf(db.meta, number), PullColumns(m)).user;
            u.updatedAt != users[number].updatedAt ==>
              u.updatedAt == env.now
                  && (ExplainedBy(env, db, m, row, number, Status) || ExplainedBy(env, db, m, row, number, Phone))
  {
    hide SheetValue, PullRow, DbFieldValue, Applies, Written, PullColumns, Decide;
    var cols, snapshot, meta := PullColumns(m), db.users[number], MetaOf(db.meta, number);
    PullColumnsAre(m);
    var done := RowStopsAt(env, users, number, snapshot, row, meta, cols);
    var ws := WrittenColumns(env, snapshot, row, meta, done);
    WrittenColumnsAre(env, snapshot, row, meta, done);
    WrittenColumnsAre(env, snapshot, row, meta, cols);
    WriteAllMerges(env, users[number], row, ws);
    WritesAre(env, db, m, number, row, Status);
    WritesAre(env, db, m, number, row, Phone);
  }

  lemma {:induction false} RowsOnlyStamp(env: Env, db: Db, m: Mappings, sheet: Sheet, number: string)
    requires number in db.users
    ensures StampExplained(env, db, m, sheet, PullRows(env, db.users, db.meta, PullColumns(m), sheet).users[number],
                           number)
  {
    hide SheetValue, PullRow, PullStep, PullColumns, ExplainedBy, Explained;
    if sheet != [] {
      var init, row := sheet[..|sheet| - 1], sheet[|sheet| - 1];
      var r := PullRows(env, db.users, db.meta, PullColumns(m), init);
      RowsOnlyStamp(env, db, m, init, number);
      MoreRowsExplainMore(env, db, m, sheet, number, Status);
      MoreRowsExplainMore(env, db, m, sheet, number, Phone);
      StepUser(env, db, PullColumns(m), r, row, number);
      if RowOf(db.users, row, number) {
        RowOnlyStamps(env, db, m, r.users, number, row);
      }
    }
  }

  lemma {:induction false} RowsOnlyExplain(env: Env, db: Db, m: Mappings, sheet: Sheet, number: string, c: Column)
    requires number in db.users && Writable(c)
    ensures var u := PullRows(env, db.users, db.meta, PullColumns(m), sheet).users[number];
            SameElsewhere(db.users[number], u) && ChangedExplained(env, db, m, sheet, u, number, c)
  {
    hide SheetValue, PullRow, PullStep, FieldText, PullColumns, ExplainedBy, Writable, SameElsewhere;
    if sheet == [] {
      SameAsItself(db.users[number]);
    } else {
      var init, row := sheet[..|sheet| - 1], sheet[|sheet| - 1];
      var r := PullRows(env, db.users, db.meta, PullColumns(m), init);
      RowsOnlyExplain(env, db, m, init, number, c);
      MoreRowsExplainMore(env, db, m, sheet, number, c);
      StepUser(env, db, PullColumns(m), r, row, number);
      if RowOf(db.users, row, number) {
        RowOnlyExplains(env, db, m, r.users, number, row, c);
      }
    }
  }

  lemma MoreRowsExplainMore(env: Env, db: Db, m: Mappings, sheet: Sheet, number: string, c: Column)
    requires number in db.users && sheet != []
    ensures Explained(env, db, m, sheet[..|sheet| - 1], number, c) ==> Explained(env, db, m, sheet, number, c)
    ensures RowOf(db.users, sheet[|sheet| - 1], number) && ExplainedBy(env, db, m, sheet[|sheet| - 1], number, c)
        ==> Explained(env, db, m, sheet, number, c)
  {
    hide SheetValue, ExplainedBy;
    var init := sheet[..|sheet| - 1];
    if Explained(env, db, m, init, number, c) {
      var i :| 0 <= i < |init| && RowOf(db.users, init[i], number) && ExplainedBy(env, db, m, init[i], number, c);
      assert sheet[i] == init[i];
    }
  }

  lemma StepUser(env: Env, db: Db, cols: seq<Column>, r: PullState, row: Cells, number: string)
    requires r.users.Keys == db.users.Keys && number in db.users
    ensures PullStep(env, db.users, db.meta, cols, r, row).users[number]
         == if RowOf(db.users, row, number)
            then PullRow(env, r.users, number, db.users[number], row, MetaOf(db.meta, number), cols).user
            else r.users[number]
  {
    hide SheetValue, PullRow;
  }

  lemma SameAsItself(u: User)
    ensures SameElsewhere(u, u)
  {
  }

  /** However a pull ends, it never touches a user outside the accepted edits of that user's rows. */
  lemma PullOnlyAppliesEdits(env: Env, db: Db, sheet: Sheet, m: Mappings)
    ensures OnlyExplainedChanges(env, db, m, sheet, Pull(env, db, sheet, m).0.users)
    ensures Pull(env, db, sheet, m).1.Threw? ==> Pull(env, db, sheet, m).0.meta == db.meta
  {
    hide SheetValue, PullRows, DbFieldValue, PullColumns, ChangedExplained, StampExplained, SameElsewhere, Upsert,
         NamesTwice;
    forall number, c | number in db.users && Writable(c)
      ensures SameElsewhere(db.users[number], Pull(env, db, sheet, m).0.users[number])
      ensures ChangedExplained(env, db, m, sheet, Pull(env, db, sheet, m).0.users[number], number, c)
    {
      RowsOnlyExplain(env, db, m, sheet, number, c);
    }
    forall number | number in db.users
        ensures SameElsewhere(db.users[number], Pull(env, db, sheet, m).0.users[number]) {
      RowsOnlyExplain(env, db, m, sheet, number, Status);
    }
    forall number | number in db.users
      ensures StampExplained(env, db, m, sheet, Pull(env, db, sheet, m).0.users[number], number)
    {
      RowsOnlyStamp(env, db, m, sheet, number);
    }
  }
}
