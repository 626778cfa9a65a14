/** What a push writes about each user: the cells of the record, and the version, hash and status kept beside it. */
module ZohoPushRecords {
  import opened Common
  import opened Text
  import opened ZohoRecords
  import opened ZohoPull
  import opened ZohoPullLaws
  import opened ZohoConflicts
  import opened ZohoPush
  import opened ZohoPushLaws
  import opened ZohoPushRows
  import opened ZohoRoundTrip

  // ---- The cells of a record -------------------------------------------------------------------

  /** The twenty cells of a user's record, as far as the record has them. */
  ghost predicate Shows(env: Env, number: string, u: User, record: Cells, version: nat, removed: bool) {
    && (UserId in record ==> record[UserId] == number)
    && (FullName in record ==> record[FullName] == u.fullName.GetOr(""))
    && (Email in record ==> record[Email] == u.email.GetOr(""))
    && (Phone in record ==> record[Phone] == u.phone.GetOr(""))
    && (Role in record ==> record[Role] == Join(env.roleOrder(u.roles), ", "))
    && (Location in record ==> record[Location] == "")
    && (Status in record ==> record[Status] == if removed then "TERMINATED" else u.state)
    && (LastLogin in record ==>
          record[LastLogin] == if u.lastLoginAt.Some? then env.fmtDateTime(u.lastLoginAt.value) else "")
    && (MfaEnabled in record ==> record[MfaEnabled] == if u.mfaEnabled then "YES" else "NO")
    && (CreatedAt in record ==> record[CreatedAt] == env.fmtDateTime(u.createdAt))
    && (UpdatedAt in record ==> record[UpdatedAt] == env.fmtDateTime(u.updatedAt))
    && (SyncStatus in record ==> record[SyncStatus] == if removed then "removed" else "synced")
    && (SyncVersion in record ==> record[SyncVersion] == Decimal(version))
    && ShowsProfile(env, u.profile, record) && ShowsRisk(u, record)
  }

  ghost predicate ShowsProfile(env: Env, profile: Option<Profile>, record: Cells) {
    && (EmployeeId in record ==>
          record[EmployeeId] == if profile.Some? then profile.value.employeeId.GetOr("") else "")
    && (Department in record ==>
          record[Department] == if profile.Some? then profile.value.department.GetOr("") else "")
    && (Designation in record ==>
          record[Designation] == if profile.Some? then profile.value.designation.GetOr("") else "")
    && (Manager in record ==> record[Manager] == if profile.Some? then profile.value.manager.GetOr("") else "")
    && (EmploymentType in record ==>
          record[EmploymentType] == if profile.Some? then profile.value.employmentStatus else "")
    && (JoiningDate in record ==>
          record[JoiningDate] == if profile.Some? && profile.value.hireDate.Some?
                                 then env.fmtDate(profile.value.hireDate.value) else "")
  }

  /** High for three states, low for two with fewer than three failed logins, medium otherwise. */
  ghost predicate ShowsRisk(u: User, record: Cells) {
    AccountRisk in record ==>
      && (record[AccountRisk] == "HIGH" <==> u.state in {"TERMINATED", "BLOCKED", "LOCKED"})
      && (record[AccountRisk] == "LOW" <==>
            u.failedLogins < 3 && u.state !in {"TERMINATED", "BLOCKED", "LOCKED", "SUSPENDED", "DISABLED",
                                               "PASSWORD_RESET_REQUIRED"})
      && record[AccountRisk] in {"HIGH", "MEDIUM", "LOW"}
  }

  lemma RecordShows(env: Env, number: string, u: User, m: Mappings, version: nat, removed: bool)
    ensures var record := ToRecord(env, number, u, m, Decimal(version), removed);
            && Shows(env, number, u, record, version, removed)
            && forall c :: c in record <==> c in PushColumns(m)
  {
    hide PushColumns, Decimal, Rendered, Shows;
    RenderedShows(env, number, u, ToRecord(env, number, u, m, Decimal(version), removed), version, removed);
  }

  ghost predicate Renders(env: Env, number: string, u: User, record: Cells, version: nat, removed: bool) {
    forall c | c in record :: record[c] == Rendered(env, number, u, c, Decimal(version), removed)
  }

  lemma RenderedShows(env: Env, number: string, u: User, record: Cells, version: nat, removed: bool)
    requires Renders(env, number, u, record, version, removed)
    ensures Shows(env, number, u, record, version, removed)
  {
    hide Join, Decimal, ShowsProfile, ShowsRisk, RiskOf;
    ProfileShows(env, number, u, record, version, removed);
    RiskShows(env, number, u, record, version, removed);
  }

  lemma ProfileShows(env: Env, number: string, u: User, record: Cells, version: nat, removed: bool)
    requires Renders(env, number, u, record, version, removed)
    ensures ShowsProfile(env, u.profile, record)
  {
    hide Join, Decimal, RiskOf;
  }

  lemma RiskShows(env: Env, number: string, u: User, record: Cells, version: nat, removed: bool)
    requires Renders(env, number, u, record, version, removed)
    ensures ShowsRisk(u, record)
  {
    if AccountRisk in record {
      assert record[AccountRisk] == RiskOf(u);
    }
    hide Rendered, Join, Decimal, Renders;
  }

  // ---- Which row, which version ---------------------------------------------------------------

  /** The last row that carries the number. */
  ghost predicate LastRow(sheet: Sheet, number: string, i: nat) {
    && i < |sheet| && RowNumber(sheet[i]) == number
    && forall j :: i < j < |sheet| ==> RowNumber(sheet[j]) != number
  }

  lemma {:induction false} IndexIsLast(sheet: Sheet, number: string)
    ensures number in IndexRows(sheet) ==> LastRow(sheet, number, IndexRows(sheet)[number])
  {
    hide RowNumber;
    if sheet != [] {
      var init := sheet[..|sheet| - 1];
      IndexIsLast(init, number);
      assert forall j :: 0 <= j < |init| ==> sheet[j] == init[j];
    }
  }

  lemma IndexKnows(sheet: Sheet, number: string)
    ensures number in IndexRows(sheet) <==> number != "" && RowsOf(sheet, number) > 0
  {
    RowsOfSome(sheet, number);
    hide RowNumber, RowsOf;
  }

  /** The version stored before, 0 without metadata. */
  ghost function OldVersion(db: Db, number: string): nat {
    if number in db.meta then db.meta[number].version else 0
  }

  /** The version that the record shows. */
  ghost function ShownVersion(db: Db, policy: DeletionPolicy, sheet: Sheet, number: string): nat
    requires number in db.users
  {
    if RowsOf(sheet, number) == 0 then 1
    else if db.users[number].deleted && policy == Keep then OldVersion(db, number)
    else OldVersion(db, number) + 1
  }

  /** The pushed columns of a row. */
  ghost function PushedPart(m: Mappings, row: Cells): Cells {
    map c | c in PushColumns(m) :: if c in row then row[c] else ""
  }

  // ---- Operations -----------------------------------------------------------------------------

  /**
   * Which operation a user has: none if deleted and without a row; an addition for a live user without a row; a removal
   * for a deleted one under the policy "delete"; otherwise an update of the user's last row. The record shows the user.
   */
  lemma OperationIs(env: Env, db: Db, sheet: Sheet, m: Mappings, policy: DeletionPolicy, op: Op)
    requires PlannedFor(env, m, policy, sheet, db, op) && op.meta.number != ""
    ensures var number, u := op.meta.number, db.users[op.meta.number];
            && (op.Add? <==> RowsOf(sheet, number) == 0)
            && (op.Add? ==> !u.deleted)
            && (op.Remove? <==> RowsOf(sheet, number) > 0 && u.deleted && policy == Delete)
            && (!op.Add? ==> LastRow(sheet, number, op.row))
            && (!op.Remove? ==>
                  && (forall c :: c in op.values <==> c in PushColumns(m))
                  && Shows(env, number, u, op.values, ShownVersion(db, policy, sheet, number), u.deleted))
  {
    hide PlanOp, IndexRows, Shows, RowsOf, LastRow, PushColumns, RowNumber;
    IndexIsLast(sheet, op.meta.number);
    IndexKnows(sheet, op.meta.number);
    OperationKind(env, db, sheet, m, policy, op);
    if !op.Remove? {
      OperationRecord(env, db, sheet, m, policy, op);
    }
  }

  lemma OperationKind(env: Env, db: Db, sheet: Sheet, m: Mappings, policy: DeletionPolicy, op: Op)
    requires PlannedFor(env, m, policy, sheet, db, op)
    ensures var number, u, index := op.meta.number, db.users[op.meta.number], IndexRows(sheet);
            && (op.Add? <==> number !in index) && (op.Add? ==> !u.deleted)
            && (op.Remove? <==> number in index && u.deleted && policy == Delete)
            && (!op.Add? ==> op.row == index[number])
  {
    hide ToRecord, IndexRows, SheetHash, Decimal;
  }

  ghost function RecordVersion(db: Db, policy: DeletionPolicy, sheet: Sheet, number: string): nat
    requires number in db.users
  {
    if number !in IndexRows(sheet) then 1
    else if db.users[number].deleted && policy == Keep then OldVersion(db, number)
    else OldVersion(db, number) + 1
  }

  lemma OperationRecord(env: Env, db: Db, sheet: Sheet, m: Mappings, policy: DeletionPolicy, op: Op)
    requires PlannedFor(env, m, policy, sheet, db, op) && !op.Remove?
    ensures var number, u := op.meta.number, db.users[op.meta.number];
            && (forall c :: c in op.values <==> c in PushColumns(m))
            && Shows(env, number, u, op.values, RecordVersion(db, policy, sheet, number), u.deleted)
  {
    var number := op.meta.number;
    OperationValues(env, db, sheet, m, policy, op);
    hide PlannedFor, ToRecord, Shows, PushColumns, RecordVersion;
    RecordShows(env, number, db.users[number], m, RecordVersion(db, policy, sheet, number), db.users[number].deleted);
  }

  lemma OperationValues(env: Env, db: Db, sheet: Sheet, m: Mappings, policy: DeletionPolicy, op: Op)
    requires PlannedFor(env, m, policy, sheet, db, op) && !op.Remove?
    ensures var number, u := op.meta.number, db.users[op.meta.number];
            op.values == ToRecord(env, number, u, m, Decimal(RecordVersion(db, policy, sheet, number)), u.deleted)
  {
    hide ToRecord, IndexRows, SheetHash, Decimal, RowNumber;
  }

  /** What the operation notes about its user. */
  lemma NoteIs(env: Env, db: Db, sheet: Sheet, m: Mappings, policy: DeletionPolicy, op: Op)
    requires PlannedFor(env, m, policy, sheet, db, op) && op.meta.number != ""
    ensures var number, old_, note := op.meta.number, OldVersion(db, op.meta.number), op.meta;
            && (op.Add? ==> note.version == 1 && note.hash == env.hash(op.values) && note.status == "synced")
            && (op.Remove? ==> note.version == old_ + 1 && note.hash == "" && note.status == "removed")
            && (op.Update? ==>
                  op.row < |sheet| &&
                  var oldHash := env.hash(PushedPart(m, sheet[op.row]));
                  if db.users[number].deleted && policy == Keep then
                    note.version == old_ && note.hash == oldHash && note.status == "removed"
                  else
                    && note.hash == env.hash(op.values) && note.status == "synced"
                    && note.version == if env.hash(op.values) != oldHash then old_ + 1 else old_)
  {
    hide ToRecord, IndexRows, SheetHash, Decimal, PushedPart, RowNumber;
    if op.Update? {
      HashOfPart(env, sheet[op.row], m);
    }
  }

  lemma HashOfPart(env: Env, row: Cells, m: Mappings)
    ensures SheetHash(env, row, m) == env.hash(PushedPart(m, row))
  {
    SamePart(m, row);
    hide PushedPart, CellOf;
  }

  lemma SamePart(m: Mappings, row: Cells)
    ensures (map c | c in PushColumns(m) :: CellOf(row, c)) == PushedPart(m, row)
  {
    hide PushColumns;
  }

  // ---- The push ---------------------------------------------------------------------------------

  /**
   * However the push went: each row it reached shows its user in the pushed columns, with the next version, or with
   * version 1 if the user was not on the sheet. Deleted users are shown as removed.
   */
  lemma PushedRecordShows(env: Env, db: Db, sheet: Sheet, m: Mappings, policy: DeletionPolicy, batchSize: nat,
                          ok: nat -> bool, i: nat)
    requires CanPush(db, batchSize) && !policy.Delete? && TrimmedNumbers(db)
    requires i < |Push(env, db, sheet, m, policy, batchSize, ok).sheet|
    requires Reached(env, db, sheet, m, policy, batchSize, ok, i)
    requires RowNumber(Push(env, db, sheet, m, policy, batchSize, ok).sheet[i]) != ""
    ensures var row := Push(env, db, sheet, m, policy, batchSize, ok).sheet[i];
            var number := RowNumber(row);
            number in db.users
            && Shows(env, number, db.users[number], PushedPart(m, row), ShownVersion(db, policy, sheet, number),
                     db.users[number].deleted)
  {
    hide Push, Plan, PlannedFor, ToRecord, TrimmedNumbers, RowNumber, RowsOf, Shows, Reached, PushColumns;
    var op := ReachedRow(env, db, sheet, m, policy, batchSize, ok, i);
    DoneIs(env, db, sheet, m, policy, batchSize, ok);
    PlannedNumber(env, m, policy, sheet, db, op);
    OperationIs(env, db, sheet, m, policy, op);
    var row := Push(env, db, sheet, m, policy, batchSize, ok).sheet[i];
    PartOfMerge(m, if i < |sheet| then sheet[i] else map[], op.values, row);
  }

  lemma PartOfMerge(m: Mappings, before: Cells, values: Cells, row: Cells)
    requires row == before + values && forall c :: c in values <==> c in PushColumns(m)
    ensures PushedPart(m, row) == values
  {
    hide PushColumns;
  }

  /**
   * However the push went, under every policy: the metadata of a user whose operation survived. An addition starts at
   * version 1. An update advances the version by one if the pushed columns of the user's last row hash differently from
   * the new record, and stores the new hash; a deleted user kept on the sheet keeps version and hash and is "removed";
   * a removal advances the version and clears the hash. The baseline stays.
   */
  lemma PushNotes(env: Env, db: Db, sheet: Sheet, m: Mappings, policy: DeletionPolicy, batchSize: nat, ok: nat -> bool,
                  op: Op)
    requires CanPush(db, batchSize) && op in Done(env, db, sheet, m, policy, batchSize, ok)
    ensures var number, after := op.meta.number, Push(env, db, sheet, m, policy, batchSize, ok).db;
            && number in db.users && number in after.meta
            && var u, old_, meta := db.users[number], OldVersion(db, number), after.meta[number];
               && meta.baseline == StoredBaseline(MetaOf(db.meta, number))
               && (op.Add? ==> meta.version == 1 && meta.hash == Some(env.hash(op.values)) && meta.status == "synced")
               && (op.Remove? ==> meta.version == old_ + 1 && meta.hash == Some("") && meta.status == "removed")
               && (op.Update? ==>
                     LastRow(sheet, number, op.row) &&
                     var oldHash := env.hash(PushedPart(m, sheet[op.row]));
                     if u.deleted && policy == Keep then
                       meta.version == old_ && meta.hash == Some(oldHash) && meta.status == "removed"
                     else
                       && meta.hash == Some(env.hash(op.values)) && meta.status == "synced"
                       && meta.version == if env.hash(op.values) != oldHash then old_ + 1 else old_)
  {
    hide Push, Plan, PlannedFor, SheetValue, RowsOf, LastRow, Done, PushedPart, PushColumns, Shows;
    DoneIs(env, db, sheet, m, policy, batchSize, ok);
    PlannedNumber(env, m, policy, sheet, db, op);
    OperationIs(env, db, sheet, m, policy, op);
    NoteIs(env, db, sheet, m, policy, op);
    PushMetadata(env, db, sheet, m, policy, batchSize, ok, op.meta.number);
    assert MetaOf(Push(env, db, sheet, m, policy, batchSize, ok).db.meta, op.meta.number)
        == Some(PushedMeta(MetaOf(db.meta, op.meta.number), op.meta));
  }

  /** The two together, for a live user whose row was reached by an update. */
  lemma ReachedUpdateAdvances(env: Env, db: Db, sheet: Sheet, m: Mappings, policy: DeletionPolicy, batchSize: nat,
                              ok: nat -> bool, i: nat, number: string)
    requires CanPush(db, batchSize) && !policy.Delete? && TrimmedNumbers(db)
    requires i < |sheet| && RowOf(db.users, sheet[i], number)
    requires Reached(env, db, sheet, m, policy, batchSize, ok, i)
    ensures var pushed := Push(env, db, sheet, m, policy, batchSize, ok);
            && i < |pushed.sheet| && number in pushed.db.meta
            && var row, old_, meta := pushed.sheet[i], OldVersion(db, number), pushed.db.meta[number];
               var oldHash, newHash := env.hash(PushedPart(m, sheet[i])), env.hash(PushedPart(m, row));
               && (PushesSyncVersion(m) ==> SyncVersion in row && row[SyncVersion] == Decimal(old_ + 1))
               && meta.version == (if newHash != oldHash then old_ + 1 else old_)
               && meta.hash == Some(newHash) && meta.status == "synced"
  {
    hide Push, Plan, PlannedFor, PlanOp, ToRecord, TrimmedNumbers, RowNumber, Shows, Done, PushColumns, Decimal, RowsOf,
         Targets, LastRow;
    PushKeepsRowNumbers(env, db, sheet, m, policy, batchSize, ok, i);
    var op := ReachedRow(env, db, sheet, m, policy, batchSize, ok, i);
    DoneIs(env, db, sheet, m, policy, batchSize, ok);
    PlannedNumber(env, m, policy, sheet, db, op);
    OperationIs(env, db, sheet, m, policy, op);
    PushNotes(env, db, sheet, m, policy, batchSize, ok, op);
    RowsOfSome(sheet, number);
    var row := Push(env, db, sheet, m, policy, batchSize, ok).sheet[i];
    PartOfMerge(m, sheet[i], op.values, row);
    ReachedIsOwnRow(env, db, sheet, m, policy, batchSize, ok, i, op);
    VersionIsPushed(m, op.values);
    ShowsVersion(env, number, db.users[number], op.values, OldVersion(db, number) + 1, false);
    hide PushedPart, OldVersion, MetaOf, CanPush;
  }

  lemma VersionIsPushed(m: Mappings, record: Cells)
    requires forall c :: c in record <==> c in PushColumns(m)
    ensures PushesSyncVersion(m) <==> SyncVersion in record
  {
    PushColumnsAre(m);
    hide PushColumns;
  }

  predicate PushesSyncVersion(m: Mappings) {
    SyncVersion in m ==> m[SyncVersion] !in {"never", "sheet_to_db"}
  }

  lemma ShowsVersion(env: Env, number: string, u: User, record: Cells, version: nat, removed: bool)
    ensures Shows(env, number, u, record, version, removed) && SyncVersion in record ==>
              record[SyncVersion] == Decimal(version)
  {
    hide Decimal, Join;
  }

  lemma ReachedIsOwnRow(env: Env, db: Db, sheet: Sheet, m: Mappings, policy: DeletionPolicy, batchSize: nat,
                        ok: nat -> bool, i: nat, op: Op)
    requires CanPush(db, batchSize) && !policy.Delete? && i < |sheet|
    requires Reached(env, db, sheet, m, policy, batchSize, ok, i)
    requires op in Done(env, db, sheet, m, policy, batchSize, ok) && op.meta.number == RowNumber(sheet[i])
    ensures op.Update? && op.row == i
  {
    hide Plan, PlannedFor, RowNumber, PlanOp;
    var updates := SentAsUpdates(env, db, sheet, m, policy, batchSize, ok);
    SentIs(env, db, sheet, m, policy, batchSize, ok);
    DoneIs(env, db, sheet, m, policy, batchSize, ok);
    var other :| other in updates && other.Update? && other.row == i;
    var done := Done(env, db, sheet, m, policy, batchSize, ok);
    assert other in done;
    var a :| 0 <= a < |done| && done[a] == op;
    var b :| 0 <= b < |done| && done[b] == other;
  }

  // ---- Who has an operation, and what is counted ----------------------------------------------------

  predicate OnSheet(sheet: Sheet, number: string) {
    RowsOf(sheet, number) > 0
  }

  ghost predicate GetsAdded(db: Db, sheet: Sheet, number: string) {
    number in db.users && !db.users[number].deleted && !OnSheet(sheet, number)
  }

  ghost predicate GetsRemoved(db: Db, sheet: Sheet, policy: DeletionPolicy, number: string) {
    number in db.users && db.users[number].deleted && OnSheet(sheet, number) && policy == Delete
  }

  ghost predicate GetsUpdated(db: Db, sheet: Sheet, policy: DeletionPolicy, number: string) {
    number in db.users && OnSheet(sheet, number) && !(db.users[number].deleted && policy == Delete)
  }

  lemma KindOfUser(env: Env, db: Db, sheet: Sheet, m: Mappings, policy: DeletionPolicy, number: string)
    requires number in db.users && number != ""
    ensures var op := PlanOp(env, m, policy, sheet, IndexRows(sheet), number, db.users[number],
                             VersionOf(db.meta, number));
            && (op.Some? && op.value.Add? <==> GetsAdded(db, sheet, number))
            && (op.Some? && op.value.Remove? <==> GetsRemoved(db, sheet, policy, number))
            && (op.Some? && op.value.Update? <==> GetsUpdated(db, sheet, policy, number))
  {
    IndexKnows(sheet, number);
    hide ToRecord, IndexRows, SheetHash, Decimal, RowsOf, RowNumber, MetaOf;
  }

  lemma {:induction false} CountsOfPlan(env: Env, db: Db, sheet: Sheet, m: Mappings, policy: DeletionPolicy,
                                        order: seq<string>, failed: nat)
    requires forall number :: number in order ==> number in db.users && number != ""
    ensures CountOps(Plan(env, m, policy, sheet, db, order), failed)
         == PushCounts(|Filter(order, n => GetsAdded(db, sheet, n))|,
                       |Filter(order, n => GetsUpdated(db, sheet, policy, n))|,
                       |Filter(order, n => GetsRemoved(db, sheet, policy, n))|, failed)
  {
    hide PlanOp, IndexRows, GetsAdded, GetsUpdated, GetsRemoved;
    if order != [] {
      var init := order[..|order| - 1];
      forall number | number in init ensures number in db.users && number != "" {
        assert number in order;
      }
      CountsOfPlan(env, db, sheet, m, policy, init, failed);
      assert order[|order| - 1] in order;
      KindOfUser(env, db, sheet, m, policy, order[|order| - 1]);
    }
  }

  /** The counters of a push count users by where they stand; what failed is counted on the side. */
  lemma PushCountsUsers(env: Env, db: Db, sheet: Sheet, m: Mappings, policy: DeletionPolicy, batchSize: nat,
                        ok: nat -> bool)
    requires CanPush(db, batchSize)
    ensures var counts := Push(env, db, sheet, m, policy, batchSize, ok).counts;
            && counts.rowsAdded == |Filter(db.order, n => GetsAdded(db, sheet, n))|
            && counts.rowsUpdated == |Filter(db.order, n => GetsUpdated(db, sheet, policy, n))|
            && counts.rowsDeleted == |Filter(db.order, n => GetsRemoved(db, sheet, policy, n))|
  {
    hide Plan, Flush, Filter, CountOps;
    var ops := Plan(env, m, policy, sheet, db, db.order);
    CountsOfPlan(env, db, sheet, m, policy, db.order, Flush(env, sheet, ops, batchSize, ok, 0).failed);
  }

  /** A user has an operation exactly when live or on the sheet: a deleted user is never put there. */
  lemma PlannedIff(env: Env, db: Db, sheet: Sheet, m: Mappings, policy: DeletionPolicy, number: string)
    requires ValidDb(db) && number != ""
    ensures (exists op :: op in Plan(env, m, policy, sheet, db, db.order) && op.meta.number == number)
        <==> number in db.users && (!db.users[number].deleted || OnSheet(sheet, number))
  {
    hide Plan, PlanOp, IndexRows, OnSheet;
    PlanIs(env, m, policy, sheet, db, db.order);
    if number in db.users {
      KindOfUser(env, db, sheet, m, policy, number);
      PlanOpNames(env, m, policy, sheet, db, number);
      var op := PlanOp(env, m, policy, sheet, IndexRows(sheet), number, db.users[number], VersionOf(db.meta, number));
      if op.Some? {
        assert PlannedFor(env, m, policy, sheet, db, op.value);
      }
    }
  }

  /** A slice of removals hands over the last row of each of its users. */
  lemma RemovalsNameTheirRows(env: Env, db: Db, sheet: Sheet, current: Sheet, m: Mappings, policy: DeletionPolicy,
                              batch: seq<Op>) returns (rows: seq<nat>)
    requires batch != []
    requires forall op :: op in batch ==>
        op.Remove? && PlannedFor(env, m, policy, sheet, db, op) && op.meta.number != ""
    ensures ApplySlice(env, current, batch) == env.deleteRows(current, rows) && |rows| == |batch|
    ensures forall k :: 0 <= k < |rows| ==> LastRow(sheet, batch[k].meta.number, rows[k])
  {
    hide PlannedFor, LastRow, RowsOf, Shows;
    rows := AllRows(batch);
    assert batch[0] in batch;
    forall k | 0 <= k < |rows| ensures LastRow(sheet, batch[k].meta.number, rows[k]) {
      assert batch[k] in batch;
      OperationIs(env, db, sheet, m, policy, batch[k]);
    }
  }
}
