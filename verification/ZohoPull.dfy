/** Sheet -> DB: what a pull computes, as a function of the database, the sheet and the field mappings. */
module ZohoPull {
  import opened Common
  import opened Text
  import opened ZohoRecords

  // ---- Field classification -----------------------------------------------------

  datatype FieldChange = Noop | Apply | DbWins | BothChanged

  function Classify(dbValue: string, sheetValue: string, lastKnownSheetValue: string): FieldChange {
    if dbValue == sheetValue then Noop
    else if dbValue == lastKnownSheetValue then Apply
    else if sheetValue == lastKnownSheetValue then DbWins
    else BothChanged
  }

  // ---- Validated writes -----------------------------------------------------------

  const ACCOUNT_STATES: set<string> :=
    {"PENDING", "ACTIVE", "SUSPENDED", "BLOCKED", "LOCKED", "DISABLED", "TERMINATED", "PASSWORD_RESET_REQUIRED"}

  const EMPLOYMENT_STATUSES: set<string> := {"active", "resigned", "terminated", "absconded"}

  /** Validation of a sheet value; columns not named here are read-only. */
  predicate Accepts(env: Env, c: Column, value: string) {
    || c.FullName?
    || c.Designation?
    || (c.Status? && env.upper(value) in ACCOUNT_STATES)
    || (c.Department? && value in env.departments)
    || (c.Manager? && env.managerEmail(value).Some?)
    || (c.Role? && value in env.roles)
    || (c.Phone? && value != "" && Utf16Length(value) <= 32)
    || (c.EmploymentType? && env.lower(value) in EMPLOYMENT_STATUSES)
  }

  /** The profile row a write into `employee_profiles` finds or inserts. */
  function ProfileOf(u: User): Profile {
    u.profile.GetOr(NEW_PROFILE)
  }

  /** These columns live in `employee_profiles` and are written with an INSERT .. ON CONFLICT. */
  predicate InsertsProfile(c: Column) {
    c.Department? || c.Designation? || c.Manager?
  }

  /**
   * The user's rows after an accepted value is written. Status and Phone live in `users`, whose updates are stamped.
   */
  function Written(env: Env, u: User, c: Column, value: string): User {
    match c
    case Status => u.(state := env.upper(value), updatedAt := env.now)
    case Department => u.(profile := Some(ProfileOf(u).(department := Some(value))))
    case Manager => u.(profile := Some(ProfileOf(u).(manager := env.managerEmail(value))))
    case Role => u.(roles := u.roles + {value})
    case FullName => u.(fullName := Some(value))
    case Phone => u.(phone := Some(value), updatedAt := env.now)
    case Designation => u.(profile := Some(ProfileOf(u).(designation := Some(value))))
    case EmploymentType =>
      if u.profile.Some? then u.(profile := Some(u.profile.value.(employmentStatus := env.lower(value)))) else u
    case _ => u
  }

  /** `users.phone` is UNIQUE: writing another user's number makes the statement throw. */
  predicate PhoneTaken(users: map<string, User>, number: string, value: string) {
    exists other | other in users.Keys :: other != number && users[other].phone == Some(value)
  }

  predicate WriteThrows(users: map<string, User>, number: string, c: Column, value: string) {
    c.Phone? && PhoneTaken(users, number, value)
  }

  // ---- Decisions --------------------------------------------------------------------

  datatype Decision =
    | ReadOnly  // not writable from the sheet
    | Seed      // first sync of this user: only record the sheet value
    | Settle    // equal, or the database wins: record the sheet value
    | Write     // only the sheet changed and the value is valid
    | Refuse    // only the sheet changed but the value is invalid
    | Clash     // both sides changed

  function LastKnown(meta: Meta, c: Column, dbValue: string): string {
    if c in meta.baseline then meta.baseline[c] else dbValue
  }

  /** What a pull does with one column, judged by the snapshot and the stored baseline alone. */
  function Decide(env: Env, snapshot: User, row: Cells, meta: Option<Meta>, c: Column): Decision {
    if !Writable(c) then ReadOnly
    else if meta.None? then Seed
    else
      var db, sheet := FieldText(env, snapshot, c), SheetValue(row, c);
      match Classify(db, sheet, LastKnown(meta.value, c, db))
      case Noop => Settle
      case DbWins => Settle
      case Apply => if Accepts(env, c, sheet) then Write else Refuse
      case BothChanged => Clash
  }

  predicate Acknowledges(d: Decision) {
    d.Seed? || d.Settle? || d.Write?
  }

  predicate Reports(d: Decision) {
    d.Refuse? || d.Clash?
  }

  /** A row of `sync_conflicts` as reported; `Other("(user)")` marks a sheet row without a live user. */
  datatype Conflict = Conflict(number: string, field: Column, dbValue: Option<string>, sheetValue: string)

  const WHOLE_USER: Column := Other("(user)")

  // ---- One sheet row ----------------------------------------------------------------

  /** `user` is the current state of the one user the row is about. */
  datatype RowResult = RowResult(
    user: User, baseline: map<Column, string>, conflicts: seq<Conflict>, writes: nat, failed: bool)

  function StoredBaseline(meta: Option<Meta>): map<Column, string> {
    if meta.Some? then meta.value.baseline else map[]
  }

  /** One column, decided by the snapshot and written to the current row of the user. */
  function PullField(env: Env, users: map<string, User>, number: string, snapshot: User, row: Cells,
                     meta: Option<Meta>, r: RowResult, c: Column): RowResult
  {
    var value := SheetValue(row, c);
    match Decide(env, snapshot, row, meta, c)
    case ReadOnly => r
    case Seed => r.(baseline := r.baseline[c := value])
    case Settle => r.(baseline := r.baseline[c := value])
    case Write =>
      if WriteThrows(users, number, c, value) then r.(failed := true)
      else r.(user := Written(env, r.user, c, value), baseline := r.baseline[c := value], writes := r.writes + 1)
    case Refuse => r.(conflicts := r.conflicts + [FieldConflict(env, number, snapshot, row, c)])
    case Clash => r.(conflicts := r.conflicts + [FieldConflict(env, number, snapshot, row, c)])
  }

  /** The columns of one row, left to right, against the snapshot; stops at a write that throws. */
  function PullRow(env: Env, users: map<string, User>, number: string, snapshot: User, row: Cells,
                   meta: Option<Meta>, cols: seq<Column>): RowResult
    requires number in users
  {
    if cols == [] then RowResult(users[number], StoredBaseline(meta), [], 0, false)
    else
      var r := PullRow(env, users, number, snapshot, row, meta, cols[..|cols| - 1]);
      if r.failed then r else PullField(env, users, number, snapshot, row, meta, r, cols[|cols| - 1])
  }

  function FieldConflict(env: Env, number: string, snapshot: User, row: Cells, c: Column): Conflict {
    Conflict(number, c, DbFieldValue(env, snapshot, c), SheetValue(row, c))
  }

  // ---- The whole sheet ----------------------------------------------------------------

  datatype MetaUpdate = MetaUpdate(number: string, meta: Meta)

  datatype PullState = PullState(
    users: map<string, User>, conflicts: seq<Conflict>, updates: seq<MetaUpdate>, writes: nat, failed: bool)

  predicate IsLive(users: map<string, User>, number: string) {
    number in users && !users[number].deleted
  }

  function MetaOf(meta: map<string, Meta>, number: string): Option<Meta> {
    if number in meta then Some(meta[number]) else None
  }

  /** A sheet row without a live user is worth reporting unless it is blank or still PENDING. */
  predicate Orphan(env: Env, row: Cells) {
    var status := env.upper(CellOf(row, Status));
    status != "" && status != "PENDING"
  }

  function OrphanConflict(env: Env, row: Cells): Conflict {
    Conflict(RowNumber(row), WHOLE_USER, None,
             "Sheet row exists but no DB user (Status=" + env.upper(CellOf(row, Status)) + ")")
  }

  function UpdatedMeta(old_: Option<Meta>, r: RowResult): Meta {
    Meta((if old_.Some? then old_.value.version else 0) + (if r.writes > 0 then 1 else 0),
         r.baseline, if r.conflicts != [] then "conflict" else "synced",
         if old_.Some? then old_.value.hash else None)
  }

  /** One sheet row. */
  function PullStep(env: Env, before: map<string, User>, meta: map<string, Meta>, cols: seq<Column>, r: PullState,
                    row: Cells)
    : (next: PullState)
    requires r.users.Keys == before.Keys
    ensures next.users.Keys == before.Keys
  {
    var number := RowNumber(row);
    if number == "" then r
    else if !IsLive(before, number) then
      if Orphan(env, row) then r.(conflicts := r.conflicts + [OrphanConflict(env, row)]) else r
    else
      var one := PullRow(env, r.users, number, before[number], row, MetaOf(meta, number), cols);
      if one.failed then r.(users := r.users[number := one.user], failed := true)
      else PullState(r.users[number := one.user], r.conflicts + one.conflicts,
                     r.updates + [MetaUpdate(number, UpdatedMeta(MetaOf(meta, number), one))],
                     r.writes + one.writes, false)
  }

  /** The sheet top to bottom, until a write throws. `before` is the one database snapshot read at the start. */
  function PullRows(env: Env, before: map<string, User>, meta: map<string, Meta>, cols: seq<Column>, sheet: Sheet)
    : (r: PullState)
    ensures r.users.Keys == before.Keys
  {
    if sheet == [] then PullState(before, [], [], 0, false)
    else
      var r := PullRows(env, before, meta, cols, sheet[..|sheet| - 1]);
      if r.failed then r else PullStep(env, before, meta, cols, r, sheet[|sheet| - 1])
  }

  // ---- The database ---------------------------------------------------------------------

  datatype ConflictRow = ConflictRow(conflict: Conflict, resolution: Option<string>)

  /**
   * The tables a sync reads and writes. `order` lists the user numbers by creation; a conflict's id is its position.
   */
  datatype Db = Db(users: map<string, User>, order: seq<string>, meta: map<string, Meta>, conflicts: seq<ConflictRow>)

  ghost predicate ValidDb(db: Db) {
    Distinct(db.order) && forall number :: number in db.order <==> number in db.users
  }

  datatype Outcome = Completed(rowsUpdated: nat, conflicts: nat) | Threw

  function Pending(conflicts: seq<Conflict>): (rows: seq<ConflictRow>)
    ensures |rows| == |conflicts|
  {
    seq(|conflicts|, (i: nat) requires i < |conflicts| => ConflictRow(conflicts[i], None))
  }

  /** ON CONFLICT DO UPDATE refuses to touch one row twice in one statement. */
  predicate NamesTwice(updates: seq<MetaUpdate>) {
    exists i, j :: 0 <= i < j < |updates| && updates[i].number == updates[j].number
  }

  function Upsert(meta: map<string, Meta>, updates: seq<MetaUpdate>): map<string, Meta> {
    if updates == [] then meta
    else
      var last := updates[|updates| - 1];
      Upsert(meta, updates[..|updates| - 1])[last.number := last.meta]
  }

  /** One pull. The statements are not wrapped in a transaction, so a throw keeps the writes made so far. */
  function Pull(env: Env, db: Db, sheet: Sheet, m: Mappings): (Db, Outcome) {
    var r := PullRows(env, db.users, db.meta, PullColumns(m), sheet);
    if r.failed then (db.(users := r.users), Threw)
    else
      var reported := db.(users := r.users, conflicts := db.conflicts + Pending(r.conflicts));
      if NamesTwice(r.updates) then (reported, Threw)
      else (reported.(meta := Upsert(db.meta, r.updates)), Completed(r.writes, |r.conflicts|))
  }
}
