/** What a pull does to each field, from the cell, the stored row and the stored baseline alone. */
module ZohoPullEffects {
  import opened Common
  import opened Text
  import opened ZohoRecords
  import opened ZohoPull
  import opened ZohoMerge
  import opened ZohoPullLaws
  import opened ZohoCompletion
  import opened ZohoFixpoint
  import opened ZohoConflicts

  // ---- Directions -----------------------------------------------------------------------------

  predicate PullsColumn(m: Mappings, c: Column) {
    c in m && m[c] in {"sheet_to_db", "bidirectional"}
  }

  predicate PushesColumn(m: Mappings, c: Column) {
    c in m ==> m[c] !in {"never", "sheet_to_db"}
  }

  /** A column without a mapping, or with an unknown one, is pushed and not pulled. */
  lemma DirectionsAre(m: Mappings, c: Column)
    ensures PullEnabled(DirectionOf(m, c)) <==> PullsColumn(m, c)
    ensures PushEnabled(DirectionOf(m, c)) <==> PushesColumn(m, c)
  {
  }

  // ---- Which side changed ---------------------------------------------------------------------

  /** The column is pulled, the user is tracked, and only the sheet moved away from the stored baseline. */
  ghost predicate SheetAlone(db: Db, m: Mappings, number: string, row: Cells, c: Column, text: string) {
    && PullsColumn(m, c) && number in db.meta && SheetValue(row, c) != text
    && (c in db.meta[number].baseline ==> db.meta[number].baseline[c] == text)
  }

  /** The same, when both sides moved, to different values. */
  ghost predicate BothSides(db: Db, m: Mappings, number: string, row: Cells, c: Column, text: string) {
    && PullsColumn(m, c) && number in db.meta && SheetValue(row, c) != text
    && c in db.meta[number].baseline
    && db.meta[number].baseline[c] != text && db.meta[number].baseline[c] != SheetValue(row, c)
  }

  ghost predicate Reported(db: Db, after: Db, k: Conflict) {
    |db.conflicts| <= |after.conflicts| && ConflictRow(k, None) in after.conflicts[|db.conflicts|..]
  }

  /**
   * The field is reported, with both values, exactly when both sides changed or the sheet alone did to an invalid
   * value; otherwise the baseline takes the cell, if the column is pulled at all.
   */
  ghost predicate FieldSettled(db: Db, after: Db, m: Mappings, number: string, row: Cells, c: Column, text: string,
                               valid: bool) {
    var value := SheetValue(row, c);
    var refused := BothSides(db, m, number, row, c, text) || (SheetAlone(db, m, number, row, c, text) && !valid);
    && (Reported(db, after, Conflict(number, c, Some(text), value)) <==> refused)
    && (forall k :: Reported(db, after, k) && k.number == number && k.field == c ==>
          k == Conflict(number, c, Some(text), value))
    && BaselineOf(after, number, c)
       == if PullsColumn(m, c) && !refused then Some(value) else BaselineOf(db, number, c)
  }

  lemma {:induction false} ReportsOfUser(env: Env, db: Db, cols: seq<Column>, sheet: Sheet, number: string, c: Column)
    requires number in db.users && !c.Other?
    ensures forall k | k in AllReports(env, db, cols, sheet) && k.number == number && k.field == c ::
              exists i :: 0 <= i < |sheet| && RowOf(db.users, sheet[i], number) && c in cols
                          && Reports(FirstDecision(env, db, number, sheet[i], c))
                          && k == FieldConflict(env, number, db.users[number], sheet[i], c)
  {
    hide SheetValue, DbFieldValue, Decide, FieldConflict;
    if sheet != [] {
      var init, row := sheet[..|sheet| - 1], sheet[|sheet| - 1];
      ReportsOfUser(env, db, cols, init, number, c);
      assert sheet[|init|] == row && forall i :: 0 <= i < |init| ==> sheet[i] == init[i];
      if RowNumber(row) != "" && IsLive(db.users, RowNumber(row)) {
        var owner := RowNumber(row);
        ReportedConflictsAre(env, owner, db.users[owner], row, MetaOf(db.meta, owner), cols);
        forall k | k in RowReports(env, db, cols, owner, row) ensures k.number == owner {
          ConflictNames(env, owner, db.users[owner], row, k.field);
        }
      } else {
        OrphanMentions(env, row, number, c);
      }
    }
  }

  lemma ConflictNames(env: Env, number: string, u: User, row: Cells, c: Column)
    ensures var k := FieldConflict(env, number, u, row, c); k.number == number && k.field == c
  {
  }

  lemma ReportedIs(reports: seq<Conflict>, before: Db, after: Db, k: Conflict)
    requires after.conflicts == before.conflicts + Pending(reports)
    ensures Reported(before, after, k) <==> k in reports
  {
    assert after.conflicts[|before.conflicts|..] == Pending(reports);
    if k in reports {
      var i :| 0 <= i < |reports| && reports[i] == k;
      assert Pending(reports)[i] == ConflictRow(k, None);
    }
  }

  /** A decision, told from the texts. */
  lemma DecidedBy(env: Env, db: Db, m: Mappings, number: string, row: Cells, c: Column, valid: bool)
    requires number in db.users && Writable(c) && valid == Accepts(env, c, SheetValue(row, c))
    ensures var text := FieldText(env, db.users[number], c);
            var d := FirstDecision(env, db, number, row, c);
            && (PullsColumn(m, c) && d.Write? <==> SheetAlone(db, m, number, row, c, text) && valid)
            && (PullsColumn(m, c) && Reports(d) <==>
                  || BothSides(db, m, number, row, c, text)
                  || (SheetAlone(db, m, number, row, c, text) && !valid))
            && (Acknowledges(d) <==> !Reports(d))
  {
    hide SheetValue, DbFieldValue, Accepts;
  }

  lemma FieldPulled(env: Env, db: Db, sheet: Sheet, m: Mappings, i: nat, number: string, c: Column, text: string,
                    valid: bool)
    requires Unobstructed(env, db, m, sheet) && i < |sheet| && RowOf(db.users, sheet[i], number) && Writable(c)
    requires text == FieldText(env, db.users[number], c) && valid == Accepts(env, c, SheetValue(sheet[i], c))
    ensures Applies(env, db, m, number, sheet[i], c) <==> SheetAlone(db, m, number, sheet[i], c, text) && valid
    ensures FieldSettled(db, Pull(env, db, sheet, m).0, m, number, sheet[i], c, text, valid)
  {
    hide SheetValue, PullColumns, AllReports, Accepts, Merges, MergedMeta, HasRow, Unobstructed, Pull, FieldText,
         RowWrites, Decide, RowNumber, BothSides, SheetAlone, Writable, DirectionOf, BaselineOf, OnlySheetChanged,
         AllWrites, PullsColumn, Reports, Acknowledges;
    var cols, after, row := PullColumns(m), Pull(env, db, sheet, m).0, sheet[i];
    var reports := AllReports(env, db, cols, sheet);
    DirectionsAre(m, c);
    PullColumnsAre(m);
    WritableIsOwned(c);
    PullIsThreeWayMerge(env, db, sheet, m);
    DecidedBy(env, db, m, number, row, c, valid);
    WritesAre(env, db, m, number, row, c);
    WriteDecision(env, db, number, row, c);
    FieldConflictIs(env, number, db.users[number], row, c);
    UnobstructedIsOneRowEach(env, db, m, sheet);
    ReportsOfUser(env, db, cols, sheet, number, c);
    OnlyRowOf(db.users, sheet, i, number);
    if c in cols && Reports(FirstDecision(env, db, number, row, c)) {
      ReportedInAll(env, db, cols, sheet, i, number, c);
    }
    forall k ensures Reported(db, after, k) <==> k in reports {
      ReportedIs(reports, db, after, k);
    }
    RowAcknowledges(env, db, m, row, after, number, c);
    AcknowledgesRowIs(env, db, m, row, number, c);
  }

  lemma FieldConflictIs(env: Env, number: string, u: User, row: Cells, c: Column)
    requires Writable(c)
    ensures FieldConflict(env, number, u, row, c) == Conflict(number, c, Some(FieldText(env, u, c)), SheetValue(row, c))
  {
  }

  lemma UnobstructedIsOneRowEach(env: Env, db: Db, m: Mappings, sheet: Sheet)
    requires Unobstructed(env, db, m, sheet)
    ensures OneRowEach(db.users, sheet)
  {
  }

  lemma OnlyRowOf(users: map<string, User>, sheet: Sheet, i: nat, number: string)
    requires OneRowEach(users, sheet) && i < |sheet| && RowOf(users, sheet[i], number)
    ensures forall j | 0 <= j < |sheet| && RowOf(users, sheet[j], number) :: j == i
  {
    hide RowNumber;
  }

  lemma AcknowledgesRowIs(env: Env, db: Db, m: Mappings, row: Cells, number: string, c: Column)
    requires RowOf(db.users, row, number) && !c.Other?
    ensures AcknowledgesRow(env, db, m, row, number, c) <==>
        PullEnabled(DirectionOf(m, c)) && Acknowledges(FirstDecision(env, db, number, row, c))
  {
    hide SheetValue, Decide;
  }

  // ---- Column by column -----------------------------------------------------------------------------

  /** The user after the pull is the merge of the row, and the merge writes the columns that apply. */
  lemma MergedInPull(env: Env, db: Db, sheet: Sheet, m: Mappings, i: nat, number: string)
    requires Unobstructed(env, db, m, sheet) && i < |sheet| && RowOf(db.users, sheet[i], number)
    ensures var after, ws := Pull(env, db, sheet, m).0, RowWrites(env, db, PullColumns(m), number, sheet[i]);
            && number in after.users && after.users[number] == Merged(env, db.users[number], sheet[i], ws)
            && forall c :: c in ws <==> Applies(env, db, m, number, sheet[i], c)
  {
    hide SheetValue, Unobstructed, Pull, RowNumber, Applies, AllReports, PullColumns, RowWrites, AllWrites, Merged;
    PullIsThreeWayMerge(env, db, sheet, m);
    forall c
      ensures c in RowWrites(env, db, PullColumns(m), number, sheet[i]) <==> Applies(env, db, m, number, sheet[i], c)
    {
      WritesAre(env, db, m, number, sheet[i], c);
    }
  }

  /** A status that alone changed is stored in upper case exactly when that is one of the eight account states. */
  lemma StatusPulled(env: Env, db: Db, sheet: Sheet, m: Mappings, i: nat, number: string)
    requires Unobstructed(env, db, m, sheet) && i < |sheet| && RowOf(db.users, sheet[i], number)
    ensures var u, row, after := db.users[number], sheet[i], Pull(env, db, sheet, m).0;
            var value := SheetValue(row, Status);
            var text := u.state;
            var valid := env.upper(value) in
                {"PENDING", "ACTIVE", "SUSPENDED", "BLOCKED", "LOCKED", "DISABLED", "TERMINATED",
                 "PASSWORD_RESET_REQUIRED"};
            && FieldSettled(db, after, m, number, row, Status, text, valid)
            && number in after.users
            && after.users[number].state
               == if SheetAlone(db, m, number, row, Status, text) && valid then env.upper(value) else u.state
  {
    hide SheetValue, Unobstructed, Pull, FieldSettled, SheetAlone, RowNumber, Applies, MergedProfile;
    MergedInPull(env, db, sheet, m, i, number);
    FieldPulled(env, db, sheet, m, i, number, Status, FieldText(env, db.users[number], Status),
                Accepts(env, Status, SheetValue(sheet[i], Status)));
  }

  /** A role that alone changed is granted exactly when there is a role of that name. */
  lemma RolePulled(env: Env, db: Db, sheet: Sheet, m: Mappings, i: nat, number: string)
    requires Unobstructed(env, db, m, sheet) && i < |sheet| && RowOf(db.users, sheet[i], number)
    ensures var u, row, after := db.users[number], sheet[i], Pull(env, db, sheet, m).0;
            var value := SheetValue(row, Role);
            var text := Join(env.roleOrder(u.roles), ", ");
            var valid := value in env.roles;
            && FieldSettled(db, after, m, number, row, Role, text, valid)
            && number in after.users
            && after.users[number].roles
               == if SheetAlone(db, m, number, row, Role, text) && valid then u.roles + {value} else u.roles
  {
    hide SheetValue, Unobstructed, Pull, FieldSettled, SheetAlone, RowNumber, Applies, MergedProfile;
    MergedInPull(env, db, sheet, m, i, number);
    FieldPulled(env, db, sheet, m, i, number, Role, FieldText(env, db.users[number], Role),
                Accepts(env, Role, SheetValue(sheet[i], Role)));
  }

  /** A full name that alone changed is always stored. */
  lemma FullNamePulled(env: Env, db: Db, sheet: Sheet, m: Mappings, i: nat, number: string)
    requires Unobstructed(env, db, m, sheet) && i < |sheet| && RowOf(db.users, sheet[i], number)
    ensures var u, row, after := db.users[number], sheet[i], Pull(env, db, sheet, m).0;
            var value := SheetValue(row, FullName);
            var text := u.fullName.GetOr("");
            var valid := true;
            && FieldSettled(db, after, m, number, row, FullName, text, valid)
            && number in after.users
            && after.users[number].fullName
               == if SheetAlone(db, m, number, row, FullName, text) && valid then Some(value) else u.fullName
  {
    hide SheetValue, Unobstructed, Pull, FieldSettled, SheetAlone, RowNumber, Applies, MergedProfile;
    MergedInPull(env, db, sheet, m, i, number);
    FieldPulled(env, db, sheet, m, i, number, FullName, FieldText(env, db.users[number], FullName),
                Accepts(env, FullName, SheetValue(sheet[i], FullName)));
  }

  /** A phone that alone changed is stored exactly when it has 1 to 32 UTF-16 code units. */
  lemma PhonePulled(env: Env, db: Db, sheet: Sheet, m: Mappings, i: nat, number: string)
    requires Unobstructed(env, db, m, sheet) && i < |sheet| && RowOf(db.users, sheet[i], number)
    ensures var u, row, after := db.users[number], sheet[i], Pull(env, db, sheet, m).0;
            var value := SheetValue(row, Phone);
            var text := u.phone.GetOr("");
            var valid := 1 <= Utf16Length(value) <= 32;
            && FieldSettled(db, after, m, number, row, Phone, text, valid)
            && number in after.users
            && after.users[number].phone
               == if SheetAlone(db, m, number, row, Phone, text) && valid then Some(value) else u.phone
  {
    hide SheetValue, Unobstructed, Pull, FieldSettled, SheetAlone, RowNumber, Applies, MergedProfile;
    MergedInPull(env, db, sheet, m, i, number);
    SomeUnits(SheetValue(sheet[i], Phone));
    FieldPulled(env, db, sheet, m, i, number, Phone, FieldText(env, db.users[number], Phone),
                Accepts(env, Phone, SheetValue(sheet[i], Phone)));
  }

  /** A department that alone changed is stored exactly when there is a department of that name. */
  lemma DepartmentPulled(env: Env, db: Db, sheet: Sheet, m: Mappings, i: nat, number: string)
    requires Unobstructed(env, db, m, sheet) && i < |sheet| && RowOf(db.users, sheet[i], number)
    ensures var u, row, after := db.users[number], sheet[i], Pull(env, db, sheet, m).0;
            var value := SheetValue(row, Department);
            var text := if u.profile.Some? then u.profile.value.department.GetOr("") else "";
            var valid := value in env.departments;
            && FieldSettled(db, after, m, number, row, Department, text, valid)
            && number in after.users
            && (after.users[number].profile.Some? ==>
                  after.users[number].profile.value.department
                  == if SheetAlone(db, m, number, row, Department, text) && valid then Some(value)
                     else if u.profile.Some? then u.profile.value.department else None)
  {
    hide SheetValue, Unobstructed, Pull, FieldSettled, SheetAlone, RowNumber, Applies;
    MergedInPull(env, db, sheet, m, i, number);
    FieldPulled(env, db, sheet, m, i, number, Department, FieldText(env, db.users[number], Department),
                Accepts(env, Department, SheetValue(sheet[i], Department)));
  }

  /** A designation that alone changed is always stored. */
  lemma DesignationPulled(env: Env, db: Db, sheet: Sheet, m: Mappings, i: nat, number: string)
    requires Unobstructed(env, db, m, sheet) && i < |sheet| && RowOf(db.users, sheet[i], number)
    ensures var u, row, after := db.users[number], sheet[i], Pull(env, db, sheet, m).0;
            var value := SheetValue(row, Designation);
            var text := if u.profile.Some? then u.profile.value.designation.GetOr("") else "";
            var valid := true;
            && FieldSettled(db, after, m, number, row, Designation, text, valid)
            && number in after.users
            && (after.users[number].profile.Some? ==>
                  after.users[number].profile.value.designation
                  == if SheetAlone(db, m, number, row, Designation, text) && valid then Some(value)
                     else if u.profile.Some? then u.profile.value.designation else None)
  {
    hide SheetValue, Unobstructed, Pull, FieldSettled, SheetAlone, RowNumber, Applies;
    MergedInPull(env, db, sheet, m, i, number);
    FieldPulled(env, db, sheet, m, i, number, Designation, FieldText(env, db.users[number], Designation),
                Accepts(env, Designation, SheetValue(sheet[i], Designation)));
  }

  /** A manager that alone changed is stored exactly when the e-mail is that of a user. */
  lemma ManagerPulled(env: Env, db: Db, sheet: Sheet, m: Mappings, i: nat, number: string)
    requires Unobstructed(env, db, m, sheet) && i < |sheet| && RowOf(db.users, sheet[i], number)
    ensures var u, row, after := db.users[number], sheet[i], Pull(env, db, sheet, m).0;
            var value := SheetValue(row, Manager);
            var text := if u.profile.Some? then u.profile.value.manager.GetOr("") else "";
            var valid := env.managerEmail(value).Some?;
            && FieldSettled(db, after, m, number, row, Manager, text, valid)
            && number in after.users
            && (after.users[number].profile.Some? ==>
                  after.users[number].profile.value.manager
                  == if SheetAlone(db, m, number, row, Manager, text) && valid then env.managerEmail(value)
                     else if u.profile.Some? then u.profile.value.manager else None)
  {
    hide SheetValue, Unobstructed, Pull, FieldSettled, SheetAlone, RowNumber, Applies;
    MergedInPull(env, db, sheet, m, i, number);
    FieldPulled(env, db, sheet, m, i, number, Manager, FieldText(env, db.users[number], Manager),
                Accepts(env, Manager, SheetValue(sheet[i], Manager)));
  }

  /**
   * An employment type that alone changed is stored in lower case, where there is a profile, exactly when it is one of
   * four words.
   */
  lemma EmploymentTypePulled(env: Env, db: Db, sheet: Sheet, m: Mappings, i: nat, number: string)
    requires Unobstructed(env, db, m, sheet) && i < |sheet| && RowOf(db.users, sheet[i], number)
    ensures var u, row, after := db.users[number], sheet[i], Pull(env, db, sheet, m).0;
            var value := SheetValue(row, EmploymentType);
            var text := if u.profile.Some? then u.profile.value.employmentStatus else "";
            var valid := env.lower(value) in {"active", "resigned", "terminated", "absconded"};
            && FieldSettled(db, after, m, number, row, EmploymentType, text, valid)
            && number in after.users
            && (after.users[number].profile.Some? ==>
                  after.users[number].profile.value.employmentStatus
                  == if SheetAlone(db, m, number, row, EmploymentType, text) && valid then env.lower(value)
                     else if u.profile.Some? then u.profile.value.employmentStatus else "active")
  {
    hide SheetValue, Unobstructed, Pull, FieldSettled, SheetAlone, RowNumber, Applies;
    MergedInPull(env, db, sheet, m, i, number);
    FieldPulled(env, db, sheet, m, i, number, EmploymentType, FieldText(env, db.users[number], EmploymentType),
                Accepts(env, EmploymentType, SheetValue(sheet[i], EmploymentType)));
  }

  lemma SomeUnits(s: string)
    ensures Utf16Length(s) >= 1 <==> s != ""
  {
  }

  // ---- The whole row ---------------------------------------------------------------------------------

  /** Which values a column takes. */
  ghost predicate ValidCell(env: Env, c: Column, value: string) {
    match c
    case Status =>
      env.upper(value) in {"PENDING", "ACTIVE", "SUSPENDED", "BLOCKED", "LOCKED", "DISABLED", "TERMINATED",
                           "PASSWORD_RESET_REQUIRED"}
    case Role => value in env.roles
    case FullName => true
    case Phone => 1 <= Utf16Length(value) <= 32
    case Department => value in env.departments
    case Designation => true
    case Manager => env.managerEmail(value).Some?
    case EmploymentType => env.lower(value) in {"active", "resigned", "terminated", "absconded"}
    case _ => false
  }

  lemma ValidIsAccepted(env: Env, c: Column, value: string)
    ensures Accepts(env, c, value) <==> ValidCell(env, c, value)
  {
    SomeUnits(value);
  }

  /** The sheet alone changed, to a valid value. */
  ghost predicate Takes(env: Env, db: Db, m: Mappings, number: string, row: Cells, c: Column)
    requires number in db.users
  {
    Writable(c) && ValidCell(env, c, SheetValue(row, c))
    && SheetAlone(db, m, number, row, c, FieldText(env, db.users[number], c))
  }

  lemma TakesIs(env: Env, db: Db, m: Mappings, number: string, row: Cells, c: Column)
    requires number in db.users
    ensures Applies(env, db, m, number, row, c) <==> Takes(env, db, m, number, row, c)
  {
    hide SheetValue, FieldText, Accepts, ValidCell;
    DirectionsAre(m, c);
    ValidIsAccepted(env, c, SheetValue(row, c));
  }

  /** When a phone edit counts: a tracked live user, the sheet alone changed, and 1 to 32 UTF-16 code units. */
  lemma PhoneEditIs(env: Env, db: Db, m: Mappings, row: Cells, number: string)
    ensures PhoneEdit(env, db, m, row, number) <==>
        && RowOf(db.users, row, number)
        && SheetAlone(db, m, number, row, Phone, db.users[number].phone.GetOr(""))
        && 1 <= Utf16Length(SheetValue(row, Phone)) <= 32
  {
    hide SheetValue, Applies, SheetAlone;
    if number in db.users {
      TakesIs(env, db, m, number, row, Phone);
    }
  }

  /** What the columns do not say: who has a profile, the stamp, and the fields no column writes. */
  lemma RestPulled(env: Env, db: Db, sheet: Sheet, m: Mappings, i: nat, number: string)
    requires Unobstructed(env, db, m, sheet) && i < |sheet| && RowOf(db.users, sheet[i], number)
    ensures var u, row, after := db.users[number], sheet[i], Pull(env, db, sheet, m).0;
            number in after.users &&
            var v := after.users[number];
            && (v.profile.Some? <==>
                  || u.profile.Some? || Takes(env, db, m, number, row, Department)
                  || Takes(env, db, m, number, row, Designation) || Takes(env, db, m, number, row, Manager))
            && (v.profile.Some? ==>
                  && v.profile.value.employeeId == (if u.profile.Some? then u.profile.value.employeeId else None)
                  && v.profile.value.hireDate == (if u.profile.Some? then u.profile.value.hireDate else None))
            && v.updatedAt == (if Takes(env, db, m, number, row, Status) || Takes(env, db, m, number, row, Phone)
                               then env.now else u.updatedAt)
            && v.email == u.email && v.mfaEnabled == u.mfaEnabled && v.failedLogins == u.failedLogins
            && v.createdAt == u.createdAt && v.lastLoginAt == u.lastLoginAt && v.deleted == u.deleted
  {
    hide SheetValue, Unobstructed, Pull, RowNumber, Applies, Takes, RowWrites;
    MergedInPull(env, db, sheet, m, i, number);
    TakesIs(env, db, m, number, sheet[i], Department);
    TakesIs(env, db, m, number, sheet[i], Designation);
    TakesIs(env, db, m, number, sheet[i], Manager);
    TakesIs(env, db, m, number, sheet[i], Status);
    TakesIs(env, db, m, number, sheet[i], Phone);
  }

  /**
   * The version goes up by one exactly when the row changed something; the status is "conflict" exactly when something
   * of the user was reported; the hash stays.
   */
  lemma MetaPulled(env: Env, db: Db, sheet: Sheet, m: Mappings, i: nat, number: string)
    requires Unobstructed(env, db, m, sheet) && i < |sheet| && RowOf(db.users, sheet[i], number)
    ensures var old_, after := MetaOf(db.meta, number), Pull(env, db, sheet, m).0;
            number in after.meta &&
            var meta := after.meta[number];
            && meta.version == (if old_.Some? then old_.value.version else 0)
                               + (if exists c :: Takes(env, db, m, number, sheet[i], c) then 1 else 0)
            && meta.status
                 == (if exists k :: Reported(db, after, k) && k.number == number then "conflict" else "synced")
            && meta.hash == (if old_.Some? then old_.value.hash else None)
  {
    hide SheetValue, Unobstructed, Pull, RowNumber, Applies, Takes, AllReports, PullColumns, AllWrites, Merges,
         RowWrites, RowReports, BaselineAfter, HasRow, Reported;
    var cols, after := PullColumns(m), Pull(env, db, sheet, m).0;
    PullIsThreeWayMerge(env, db, sheet, m);
    MergedInPull(env, db, sheet, m, i, number);
    forall c ensures Applies(env, db, m, number, sheet[i], c) <==> Takes(env, db, m, number, sheet[i], c) {
      TakesIs(env, db, m, number, sheet[i], c);
    }
    EmptyIffNoMember(RowWrites(env, db, cols, number, sheet[i]));
    EmptyIffNoMember(RowReports(env, db, cols, number, sheet[i]));
    UnobstructedIsOneRowEach(env, db, m, sheet);
    ReportsNaming(env, db, cols, sheet, i, number);
    forall k ensures Reported(db, after, k) <==> k in AllReports(env, db, cols, sheet) {
      ReportedIs(AllReports(env, db, cols, sheet), db, after, k);
    }
    assert MetaOf(after.meta, number) == Some(MergedMeta(env, db, cols, number, sheet[i]));
  }

  /** The reports that name a live user are those of the user's row. */
  lemma {:induction false} ReportsNaming(env: Env, db: Db, cols: seq<Column>, sheet: Sheet, i: nat, number: string)
    requires OneRowEach(db.users, sheet) && i < |sheet| && RowOf(db.users, sheet[i], number)
    ensures forall k :: k in AllReports(env, db, cols, sheet) && k.number == number <==>
              k in RowReports(env, db, cols, number, sheet[i])
  {
    hide SheetValue, RowReports, OneRowEach;
    var init, row := sheet[..|sheet| - 1], sheet[|sheet| - 1];
    assert sheet == init + [row];
    OneRowEachPrefix(db.users, init, row);
    RowReportsName(env, db, cols, RowNumber(row), row);
    RowReportsName(env, db, cols, number, sheet[i]);
    if i < |init| {
      assert init[i] == sheet[i] && HasRow(db.users, init, number);
      ReportsNaming(env, db, cols, init, i, number);
    } else {
      NoReportsNaming(env, db, cols, init, number);
    }
  }

  lemma {:induction false} NoReportsNaming(env: Env, db: Db, cols: seq<Column>, sheet: Sheet, number: string)
    requires IsLive(db.users, number) && !HasRow(db.users, sheet, number)
    ensures forall k :: k in AllReports(env, db, cols, sheet) ==> k.number != number
  {
    hide SheetValue, RowReports;
    if sheet != [] {
      var init, row := sheet[..|sheet| - 1], sheet[|sheet| - 1];
      assert forall j :: 0 <= j < |init| ==> sheet[j] == init[j];
      NoReportsNaming(env, db, cols, init, number);
      assert !RowOf(db.users, sheet[|init|], number);
      RowReportsName(env, db, cols, RowNumber(row), row);
    }
  }

  lemma RowReportsName(env: Env, db: Db, cols: seq<Column>, number: string, row: Cells)
    ensures number in db.users ==> forall k :: k in RowReports(env, db, cols, number, row) ==> k.number == number
  {
    hide SheetValue, DbFieldValue, Decide, ReportedConflicts;
    if number in db.users {
      ReportedConflictsAre(env, number, db.users[number], row, MetaOf(db.meta, number), cols);
    }
  }

  // ---- Counts and orphans -------------------------------------------------------------------------------

  const FIELDS: set<Column> := {Status, Department, Manager, Role, FullName, Phone, Designation, EmploymentType}

  /** How many cells of the sheet are taken. */
  ghost function TakenCells(env: Env, db: Db, m: Mappings, sheet: Sheet): nat {
    if sheet == [] then 0
    else
      var row := sheet[|sheet| - 1];
      var number := RowNumber(row);
      TakenCells(env, db, m, sheet[..|sheet| - 1])
      + if RowOf(db.users, row, number) then |set c | c in FIELDS && Takes(env, db, m, number, row, c)| else 0
  }

  lemma {:induction false} AsManyAsDistinct(s: seq<Column>)
    requires InSheetOrder(s)
    ensures |set c | c in s| == |s|
  {
    hide Rank;
    if s != [] {
      var init, last := s[..|s| - 1], s[|s| - 1];
      AsManyAsDistinct(init);
      assert s == init + [last];
      assert (set c | c in s) == (set c | c in init) + {last};
      assert last !in init;
    }
  }

  lemma {:induction false} WritesAreTaken(env: Env, db: Db, m: Mappings, sheet: Sheet)
    ensures AllWrites(env, db, PullColumns(m), sheet) == TakenCells(env, db, m, sheet)
  {
    hide SheetValue, RowWrites, PullColumns, Takes, Applies, InSheetOrder;
    if sheet != [] {
      var row := sheet[|sheet| - 1];
      var number := RowNumber(row);
      WritesAreTaken(env, db, m, sheet[..|sheet| - 1]);
      if RowOf(db.users, row, number) {
        RowTakes(env, db, m, number, row);
      }
    }
  }

  lemma RowTakes(env: Env, db: Db, m: Mappings, number: string, row: Cells)
    requires number in db.users
    ensures |RowWrites(env, db, PullColumns(m), number, row)|
         == |set c | c in FIELDS && Takes(env, db, m, number, row, c)|
  {
    hide SheetValue, PullColumns, Takes, Applies, WrittenColumns;
    var ws := RowWrites(env, db, PullColumns(m), number, row);
    PullColumnsAre(m);
    WrittenColumnsAre(env, db.users[number], row, MetaOf(db.meta, number), PullColumns(m));
    forall c ensures c in ws <==> c in FIELDS && Takes(env, db, m, number, row, c) {
      WritesAre(env, db, m, number, row, c);
      TakesIs(env, db, m, number, row, c);
      TakenIsField(env, db, m, number, row, c);
    }
    AsManyAsDistinct(ws);
    assert (set c | c in ws) == set c | c in FIELDS && Takes(env, db, m, number, row, c);
  }

  lemma TakenIsField(env: Env, db: Db, m: Mappings, number: string, row: Cells, c: Column)
    requires number in db.users
    ensures Takes(env, db, m, number, row, c) ==> c in FIELDS
  {
    hide SheetValue;
  }

  /** A pull that completes counts the cells it took. */
  lemma PullCounts(env: Env, db: Db, sheet: Sheet, m: Mappings)
    requires Unobstructed(env, db, m, sheet)
    ensures var (after, outcome) := Pull(env, db, sheet, m);
            && |db.conflicts| <= |after.conflicts|
            && outcome == Completed(TakenCells(env, db, m, sheet), |after.conflicts| - |db.conflicts|)
  {
    hide SheetValue, PullColumns, AllReports, AllWrites, TakenCells, Pull, Unobstructed, Merges;
    PullIsThreeWayMerge(env, db, sheet, m);
    WritesAreTaken(env, db, m, sheet);
  }

  /** A row names nobody live, and its status, in upper case, is neither blank nor PENDING. */
  ghost predicate Orphaned(env: Env, db: Db, row: Cells, k: Conflict) {
    && RowNumber(row) == k.number != "" && !IsLive(db.users, k.number)
    && var status := env.upper(CellOf(row, Status));
       && status != "" && status != "PENDING"
       && k.dbValue == None && k.sheetValue == "Sheet row exists but no DB user (Status=" + status + ")"
  }

  /** The rows without a live user that are reported. */
  lemma OrphansReported(env: Env, db: Db, sheet: Sheet, m: Mappings, k: Conflict)
    requires Unobstructed(env, db, m, sheet) && k.field == Other("(user)")
    ensures Reported(db, Pull(env, db, sheet, m).0, k) <==>
        exists i :: 0 <= i < |sheet| && Orphaned(env, db, sheet[i], k)
  {
    hide SheetValue, PullColumns, AllReports, AllWrites, Pull, Unobstructed, Merges, Orphaned, Reported;
    PullIsThreeWayMerge(env, db, sheet, m);
    ReportedIs(AllReports(env, db, PullColumns(m), sheet), db, Pull(env, db, sheet, m).0, k);
    PullColumnsAre(m);
    OrphansAre(env, db, PullColumns(m), sheet, k);
  }

  lemma {:induction false} OrphansAre(env: Env, db: Db, cols: seq<Column>, sheet: Sheet, k: Conflict)
    requires k.field == Other("(user)") && k.field !in cols
    ensures k in AllReports(env, db, cols, sheet) <==> exists i :: 0 <= i < |sheet| && Orphaned(env, db, sheet[i], k)
  {
    hide SheetValue, RowReports, OrphanConflict, Orphan, Orphaned;
    if sheet != [] {
      var init, row := sheet[..|sheet| - 1], sheet[|sheet| - 1];
      assert sheet[|init|] == row && forall j :: 0 <= j < |init| ==> sheet[j] == init[j];
      OrphansAre(env, db, cols, init, k);
      OrphanIs(env, db, cols, row, k);
    }
  }

  lemma OrphanIs(env: Env, db: Db, cols: seq<Column>, row: Cells, k: Conflict)
    requires k.field == Other("(user)") && k.field !in cols
    ensures Orphaned(env, db, row, k) <==>
        RowNumber(row) != "" && !IsLive(db.users, RowNumber(row)) && Orphan(env, row) && k == OrphanConflict(env, row)
    ensures IsLive(db.users, RowNumber(row)) ==> k !in RowReports(env, db, cols, RowNumber(row), row)
  {
    hide SheetValue, DbFieldValue, Decide, ReportedConflicts;
    if IsLive(db.users, RowNumber(row)) {
      var number := RowNumber(row);
      ReportedConflictsAre(env, number, db.users[number], row, MetaOf(db.meta, number), cols);
    }
  }
}
