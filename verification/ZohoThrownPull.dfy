/** What a pull that throws leaves behind, and which fields its retry then reports although nobody else touched them. */
module ZohoThrownPull {
  import opened Common
  import opened Text
  import opened ZohoRecords
  import opened ZohoPull
  import opened ZohoMerge
  import opened ZohoPullLaws
  import opened ZohoCompletion

  // ---- The row that throws --------------------------------------------------------------------

  /** The user of the throwing row: only the full name comes before the phone. */
  function HalfWritten(u: User, row: Cells, named: bool): User {
    if named then u.(fullName := Some(SheetValue(row, FullName))) else u
  }

  lemma MergedFullName(env: Env, u: User, row: Cells, ws: seq<Column>)
    requires forall c :: c in ws ==> c.FullName?
    ensures Merged(env, u, row, ws) == HalfWritten(u, row, FullName in ws)
  {
    hide SheetValue;
  }

  lemma OnlyNameBeforePhone(c: Column)
    ensures Writable(c) && Rank(c) < Rank(Phone) ==> c.FullName?
    ensures c.Phone? ==> !(Rank(c) < Rank(Phone))
  {
  }

  lemma BeforePhone(env: Env, users: map<string, User>, number: string, snapshot: User, row: Cells, meta: Option<Meta>,
                    cols: seq<Column>)
    requires number in users && InSheetOrder(cols) && forall c :: c in cols ==> Rank(c) < Rank(Phone)
    ensures var r := PullRow(env, users, number, snapshot, row, meta, cols);
            && !r.failed
            && r.user == HalfWritten(users[number], row,
                                     FullName in cols && Decide(env, snapshot, row, meta, FullName).Write?)
  {
    hide Decide, SheetValue, PhoneTaken, HalfWritten, Merged, PullRow, Rank, Writable, InSheetOrder, WriteAll,
         WrittenColumns, BaselineAfter, ReportedConflicts;
    WrittenColumnsAre(env, snapshot, row, meta, cols);
    RowFailsIff(env, users, number, snapshot, row, meta, cols);
    RowResultIs(env, users, number, snapshot, row, meta, cols);
    var ws := WrittenColumns(env, snapshot, row, meta, cols);
    forall c
      ensures c in ws ==> c.FullName?
      ensures c in cols ==> !c.Phone?
    {
      OnlyNameBeforePhone(c);
    }
    WriteAllMerges(env, users[number], row, ws);
    MergedFullName(env, users[number], row, ws);
  }

  lemma {:induction false} FailedRowUser(env: Env, users: map<string, User>, number: string, snapshot: User, row: Cells,
                                         meta: Option<Meta>, cols: seq<Column>)
    requires number in users && InSheetOrder(cols)
    requires PullRow(env, users, number, snapshot, row, meta, cols).failed
    ensures Phone in cols
    ensures PullRow(env, users, number, snapshot, row, meta, cols).user
         == HalfWritten(users[number], row, FullName in cols && Decide(env, snapshot, row, meta, FullName).Write?)
  {
    hide Decide, SheetValue, Written, PhoneTaken, FieldConflict, HalfWritten, Rank, PullField;
    var init, last := cols[..|cols| - 1], cols[|cols| - 1];
    assert forall c :: c in cols <==> c in init || c == last;
    assert forall c :: c in init ==> Rank(c) < Rank(last);
    if PullRow(env, users, number, snapshot, row, meta, init).failed {
      FailedRowUser(env, users, number, snapshot, row, meta, init);
      assert last != FullName by { NameBeforePhone(); }
    } else {
      OnlyPhoneThrows(env, users, number, snapshot, row, meta, cols);
      BeforePhone(env, users, number, snapshot, row, meta, init);
    }
  }

  lemma NameBeforePhone()
    ensures Rank(FullName) < Rank(Phone)
  {
  }

  lemma OnlyPhoneThrows(env: Env, users: map<string, User>, number: string, snapshot: User, row: Cells,
                        meta: Option<Meta>, cols: seq<Column>)
    requires number in users && cols != [] && PullRow(env, users, number, snapshot, row, meta, cols).failed
    requires !PullRow(env, users, number, snapshot, row, meta, cols[..|cols| - 1]).failed
    ensures cols[|cols| - 1] == Phone
    ensures PullRow(env, users, number, snapshot, row, meta, cols).user
         == PullRow(env, users, number, snapshot, row, meta, cols[..|cols| - 1]).user
  {
    hide Decide, SheetValue, Written, PhoneTaken, FieldConflict;
  }

  // ---- The rows before it --------------------------------------------------------------------------

  lemma FreeUpTo(env: Env, db: Db, m: Mappings, sheet: Sheet, k: nat)
    requires k <= |sheet| && PhonesFree(env, db, m, sheet)
    ensures PhonesFree(env, db, m, sheet[..k])
  {
    hide SheetValue, PhoneFree, PhoneEdit;
    forall j, number | 0 <= j < k && PhoneEdit(env, db, m, sheet[..k][j], number)
      ensures PhoneFree(env, db, m, sheet[..k][..j], number, SheetValue(sheet[..k][j], Phone))
    {
      assert sheet[..k][..j] == sheet[..j] && sheet[..k][j] == sheet[j];
    }
  }

  /** Row `j` of live user `number` is the one that throws. */
  ghost predicate ThrowsAt(env: Env, db: Db, m: Mappings, sheet: Sheet, j: nat, number: string) {
    && j < |sheet| && PhoneEdit(env, db, m, sheet[j], number)
    && PhonesFree(env, db, m, sheet[..j])
    && !PhoneFree(env, db, m, sheet[..j], number, SheetValue(sheet[j], Phone))
  }

  /** The user of the throwing row as that row leaves it. */
  ghost function ThrowingUser(env: Env, db: Db, m: Mappings, number: string, row: Cells): User
    requires number in db.users
  {
    HalfWritten(db.users[number], row, Applies(env, db, m, number, row, FullName))
  }

  /** A row throws at which every user stands as merged before it, but for its own user. */
  lemma {:induction false} ThrownPullLeaves(env: Env, db: Db, m: Mappings, sheet: Sheet)
      returns (j: nat, number: string)
    requires OneRowEach(db.users, sheet) && !PhonesFree(env, db, m, sheet)
    ensures ThrowsAt(env, db, m, sheet, j, number) && number in db.users
    ensures var users := PullRows(env, db.users, db.meta, PullColumns(m), sheet).users;
            && users[number] == ThrowingUser(env, db, m, number, sheet[j])
            && Merges(env, db, PullColumns(m), sheet[..j], users[number := db.users[number]])
  {
    hide PullRow, SheetValue, OneRowEach, PhoneFree, PhonesFree, Merges, Applies, RowWrites, PullColumns, HalfWritten,
         MergedUser;
    var cols := PullColumns(m);
    assert sheet != [] by { EmptySheetIsFree(env, db, m); }
    var init, row := sheet[..|sheet| - 1], sheet[|sheet| - 1];
    assert sheet == init + [row];
    OneRowEachPrefix(db.users, init, row);
    RowsFailIff(env, db, m, sheet);
    RowsFailIff(env, db, m, init);
    var r := PullRows(env, db.users, db.meta, cols, init);
    if r.failed {
      j, number := ThrownPullLeaves(env, db, m, init);
      assert sheet[..j] == init[..j] && sheet[j] == init[j];
    } else {
      j, number := |sheet| - 1, RowNumber(row);
      FreeOneMore(env, db, m, init, row);
      PullColumnsAre(m);
      PullMergesUsers(env, db, cols, init);
      NotYetMerged(env, db, cols, init, number, r.users);
      FailedRowUser(env, r.users, number, db.users[number], row, MetaOf(db.meta, number), cols);
      NameApplies(env, db, m, number, row);
      assert PullRows(env, db.users, db.meta, cols, sheet).users[number := db.users[number]] == r.users;
    }
  }

  lemma NameApplies(env: Env, db: Db, m: Mappings, number: string, row: Cells)
    requires number in db.users
    ensures FullName in PullColumns(m) && Decide(env, db.users[number], row, MetaOf(db.meta, number), FullName).Write?
            <==> Applies(env, db, m, number, row, FullName)
  {
    hide SheetValue, PullColumns, Decide, OnlySheetChanged;
    PullColumnsAre(m);
    WriteDecision(env, db, number, row, FullName);
  }

  // ---- The retry ---------------------------------------------------------------------------------------

  /**
   * A field the row has written, or defaulted with the profile it inserted, and whose text then differs from the cell
   * and from a baseline that still is the old one.
   */
  ghost predicate Stale(env: Env, db: Db, m: Mappings, number: string, row: Cells, c: Column)
    requires number in db.users
  {
    number in db.meta &&
    var value, baseline := SheetValue(row, c), db.meta[number].baseline;
    if Applies(env, db, m, number, row, c) then
      var hasProfile := db.users[number].profile.Some? || InsertsNewProfile(env, db, m, number, row);
      var text := Normalised(env, db.users[number], c, value, hasProfile);
      text != value && c in baseline && baseline[c] != text
    else
      && c.EmploymentType? && InsertsNewProfile(env, db, m, number, row) && value == ""
      && !(c in baseline && baseline[c] == "")
      && ((c in baseline && baseline[c] != DEFAULT_EMPLOYMENT_STATUS) || !Accepts(env, c, ""))
  }

  /** A merged row, pulled again with the old metadata, reports a field anew exactly when it is stale. */
  lemma RetryDecision(env: Env, db: Db, m: Mappings, u: User, number: string, row: Cells, c: Column)
    requires number in db.users && u == MergedUser(env, db, PullColumns(m), number, row)
    requires Writable(c) && PullEnabled(DirectionOf(m, c))
    ensures Reports(Decide(env, u, row, MetaOf(db.meta, number), c)) && !Reports(FirstDecision(env, db, number, row, c))
            <==> Stale(env, db, m, number, row, c)
  {
    hide MergedUser, InsertsNewProfile, DbFieldValue, SheetValue, Accepts, PullColumns, Normalised;
    MergedText(env, db, m, number, row, c);
    if c == EmploymentType && InsertsNewProfile(env, db, m, number, row) {
      assert FieldText(env, db.users[number], c) == "" by { NoProfileNoStatus(env, db, m, number, row); }
    }
  }

  lemma NoProfileNoStatus(env: Env, db: Db, m: Mappings, number: string, row: Cells)
    requires number in db.users && InsertsNewProfile(env, db, m, number, row)
    ensures FieldText(env, db.users[number], EmploymentType) == ""
  {
  }

  /** The throwing row reports nothing anew: only a full name was written, and it reads back as it is. */
  lemma HalfWrittenDecision(env: Env, db: Db, m: Mappings, number: string, row: Cells, c: Column)
    requires number in db.users && Writable(c)
    ensures Reports(Decide(env, ThrowingUser(env, db, m, number, row), row, MetaOf(db.meta, number), c)) ==>
              Reports(FirstDecision(env, db, number, row, c))
  {
    hide SheetValue, Accepts, OnlySheetChanged;
  }

  /** The retry reports no field that the thrown pull would not have reported. */
  ghost predicate CleanRetry(env: Env, db: Db, m: Mappings, sheet: Sheet, next: Db) {
    && next.users.Keys == db.users.Keys
    && forall i, number, c | 0 <= i < |sheet| && RowOf(db.users, sheet[i], number) && Pullable(m, c) ::
         CleanField(env, db, next, number, sheet[i], c)
  }

  predicate Pullable(m: Mappings, c: Column) {
    Writable(c) && PullEnabled(DirectionOf(m, c))
  }

  ghost predicate CleanField(env: Env, db: Db, next: Db, number: string, row: Cells, c: Column)
    requires number in db.users && number in next.users
  {
    Reports(FirstDecision(env, next, number, row, c)) ==> Reports(FirstDecision(env, db, number, row, c))
  }

  lemma RowRetried(env: Env, db: Db, m: Mappings, sheet: Sheet, next: Db, j: nat, thrown: string, i: nat,
                   number: string, c: Column)
    requires OneRowEach(db.users, sheet) && ThrowsAt(env, db, m, sheet, j, thrown) && next.meta == db.meta
    requires thrown in db.users && next.users.Keys == db.users.Keys
    requires next.users[thrown] == ThrowingUser(env, db, m, thrown, sheet[j])
    requires Merges(env, db, PullColumns(m), sheet[..j], next.users[thrown := db.users[thrown]])
    requires i < |sheet| && RowOf(db.users, sheet[i], number) && Pullable(m, c)
    ensures CleanField(env, db, next, number, sheet[i], c)
            <==> !(PhonesFree(env, db, m, sheet[..i + 1]) && Stale(env, db, m, number, sheet[i], c))
  {
    hide PhonesFree, PhoneFree, SheetValue, Decide, PullColumns, Stale, MergedUser, ThrowingUser, Writable, Applies;
    PrefixThrows(env, db, m, sheet, j, thrown, i);
    assert RowOf(db.users, sheet[j], thrown);
    if i < j {
      assert RowOf(db.users, sheet[..j][i], number) && number != thrown;
      RetryDecision(env, db, m, next.users[number], number, sheet[i], c);
    } else if i == j {
      HalfWrittenDecision(env, db, m, number, sheet[i], c);
    } else {
      assert number != thrown && !HasRow(db.users, sheet[..j], number);
    }
  }

  /** The rows before the throwing one are those up to which every phone edit is free. */
  lemma PrefixThrows(env: Env, db: Db, m: Mappings, sheet: Sheet, j: nat, thrown: string, i: nat)
    requires ThrowsAt(env, db, m, sheet, j, thrown) && i < |sheet|
    ensures PhonesFree(env, db, m, sheet[..i + 1]) <==> i < j
  {
    hide PhoneFree, SheetValue, PhoneEdit, PhonesFree;
    if i < j {
      FreeUpTo(env, db, m, sheet[..j], i + 1);
      assert sheet[..j][..i + 1] == sheet[..i + 1];
    } else if PhonesFree(env, db, m, sheet[..i + 1]) {
      FreeUpTo(env, db, m, sheet[..i + 1], j + 1);
      assert sheet[..i + 1][..j + 1] == sheet[..j] + [sheet[j]];
      FreeOneMore(env, db, m, sheet[..j], sheet[j]);
      assert thrown == RowNumber(sheet[j]) by { EditorIsRow(env, db, m, sheet[j], thrown); }
    }
  }

  lemma EditorIsRow(env: Env, db: Db, m: Mappings, row: Cells, number: string)
    requires PhoneEdit(env, db, m, row, number)
    ensures RowNumber(row) == number
  {
  }

  /**
   * After a pull that threw on a phone number, a retry reports nothing new exactly when no row before the throwing one
   * holds a stale field: an accepted value that was normalised away from the cell and from the stored baseline, or an
   * empty Employment Type cell next to a profile the row inserted.
   */
  lemma RetryIsCleanIff(env: Env, db: Db, m: Mappings, sheet: Sheet)
    requires OneRowEach(db.users, sheet) && !PhonesFree(env, db, m, sheet)
    ensures CleanRetry(env, db, m, sheet, Pull(env, db, sheet, m).0) <==>
      forall i, number, c | 0 <= i < |sheet| && RowOf(db.users, sheet[i], number) && Pullable(m, c) ::
        !(PhonesFree(env, db, m, sheet[..i + 1]) && Stale(env, db, m, number, sheet[i], c))
  {
    hide PhonesFree, SheetValue, PullColumns, PullRows, OneRowEach, CleanField, Stale, ThrowsAt, ThrowingUser, Merges,
         Pullable;
    var next := Pull(env, db, sheet, m).0;
    var j, thrown := ThrownPullLeaves(env, db, m, sheet);
    RowsFailIff(env, db, m, sheet);
    forall i, number, c | 0 <= i < |sheet| && RowOf(db.users, sheet[i], number) && Pullable(m, c)
      ensures CleanField(env, db, next, number, sheet[i], c)
              <==> !(PhonesFree(env, db, m, sheet[..i + 1]) && Stale(env, db, m, number, sheet[i], c))
    {
      RowRetried(env, db, m, sheet, next, j, thrown, i, number, c);
    }
  }
}
