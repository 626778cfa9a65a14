/** The data the Zoho synchroniser works on, and how a database user is rendered into sheet columns. */
module ZohoRecords {
  import opened Common
  import opened Text

  datatype Direction = Never | DbToSheet | SheetToDb | Bidirectional

  /** Unknown directions fall back to DB -> sheet. */
  function NormalizeDirection(value: string): Direction {
    if value == "never" then Never
    else if value == "sheet_to_db" then SheetToDb
    else if value == "bidirectional" then Bidirectional
    else DbToSheet
  }

  predicate PushEnabled(d: Direction) {
    d.DbToSheet? || d.Bidirectional?
  }

  predicate PullEnabled(d: Direction) {
    d.SheetToDb? || d.Bidirectional?
  }

  /** The twenty sheet columns the synchroniser owns, and any other column of the sheet. */
  datatype Column =
    | UserId | EmployeeId | FullName | Email | Phone | Department | Designation | Role | Manager | Location
    | EmploymentType | JoiningDate | Status | LastLogin | MfaEnabled | AccountRisk | CreatedAt | UpdatedAt
    | SyncStatus | SyncVersion
    | Other(name: string)

  const COLUMN_COUNT: nat := 20

  /** The i-th owned column, in sheet order. */
  function ColumnAt(i: nat): Column {
    if i == 0 then UserId else if i == 1 then EmployeeId else if i == 2 then FullName else
    if i == 3 then Email else if i == 4 then Phone else if i == 5 then Department else
    if i == 6 then Designation else if i == 7 then Role else if i == 8 then Manager else
    if i == 9 then Location else if i == 10 then EmploymentType else if i == 11 then JoiningDate else
    if i == 12 then Status else if i == 13 then LastLogin else if i == 14 then MfaEnabled else
    if i == 15 then AccountRisk else if i == 16 then CreatedAt else if i == 17 then UpdatedAt else
    if i == 18 then SyncStatus else SyncVersion
  }

  function SheetColumns(): seq<Column> {
    seq(COLUMN_COUNT, (i: nat) => ColumnAt(i))
  }

  /** Position of a column in sheet order; columns the synchroniser does not own come last. */
  function Rank(c: Column): nat {
    match c
    case UserId => 0 case EmployeeId => 1 case FullName => 2 case Email => 3 case Phone => 4
    case Department => 5 case Designation => 6 case Role => 7 case Manager => 8 case Location => 9
    case EmploymentType => 10 case JoiningDate => 11 case Status => 12 case LastLogin => 13
    case MfaEnabled => 14 case AccountRisk => 15 case CreatedAt => 16 case UpdatedAt => 17
    case SyncStatus => 18 case SyncVersion => 19 case Other(_) => 20
  }

  /** In sheet order, without repetition. */
  ghost predicate InSheetOrder(cols: seq<Column>) {
    forall i, j :: 0 <= i < j < |cols| ==> Rank(cols[i]) < Rank(cols[j])
  }

  /** The raw rows of `sync_field_mappings`. */
  type Mappings = map<Column, string>

  function DirectionOf(m: Mappings, c: Column): Direction {
    if c in m then NormalizeDirection(m[c]) else DbToSheet
  }

  function PushColumns(m: Mappings): seq<Column> {
    Filter(SheetColumns(), c => PushEnabled(DirectionOf(m, c)))
  }

  function PullColumns(m: Mappings): seq<Column> {
    Filter(SheetColumns(), c => PullEnabled(DirectionOf(m, c)))
  }

  lemma {:induction false} FilterKeepsSheetOrder(cols: seq<Column>, p: Column -> bool)
    requires InSheetOrder(cols)
    ensures InSheetOrder(Filter(cols, p))
  {
    if cols != [] {
      var init := cols[..|cols| - 1];
      FilterKeepsSheetOrder(init, p);
      FilterMembers(init, p);
      var kept := Filter(init, p);
      forall i | 0 <= i < |kept| ensures Rank(kept[i]) < Rank(cols[|cols| - 1]) {
        assert kept[i] in init;
      }
    }
  }

  lemma OwnedColumns(c: Column)
    ensures c in SheetColumns() <==> !c.Other?
  {
    if !c.Other? {
      assert SheetColumns()[Rank(c)] == ColumnAt(Rank(c)) == c;
    }
  }

  lemma SheetColumnsOrdered()
    ensures InSheetOrder(SheetColumns())
  {
    hide Rank, ColumnAt;
    forall i: nat | i < COLUMN_COUNT ensures Rank(SheetColumns()[i]) == i {
      assert SheetColumns()[i] == ColumnAt(i);
      RankOfColumn(i);
    }
  }

  lemma RankOfColumn(i: nat)
    requires i < COLUMN_COUNT
    ensures Rank(ColumnAt(i)) == i
  {
  }

  lemma PullColumnsAre(m: Mappings)
    ensures InSheetOrder(PullColumns(m))
    ensures forall c :: c in PullColumns(m) <==> !c.Other? && PullEnabled(DirectionOf(m, c))
  {
    SheetColumnsOrdered();
    FilterKeepsSheetOrder(SheetColumns(), c => PullEnabled(DirectionOf(m, c)));
    FilterMembers(SheetColumns(), c => PullEnabled(DirectionOf(m, c)));
    forall c ensures c in SheetColumns() <==> !c.Other? { OwnedColumns(c); }
  }

  lemma PushColumnsAre(m: Mappings)
    ensures forall c :: c in PushColumns(m) <==> !c.Other? && PushEnabled(DirectionOf(m, c))
  {
    FilterMembers(SheetColumns(), c => PushEnabled(DirectionOf(m, c)));
    forall c ensures c in SheetColumns() <==> !c.Other? { OwnedColumns(c); }
  }

  // ---- Sheet ------------------------------------------------------------------

  /** One sheet record: its cells by column. The i-th record of the sheet has row index i. */
  type Cells = map<Column, string>
  type Sheet = seq<Cells>

  function CellOf(row: Cells, c: Column): string {
    if c in row then row[c] else ""
  }

  /** What the pull compares: the trimmed cell. */
  function SheetValue(row: Cells, c: Column): string {
    Trim(CellOf(row, c))
  }

  function RowNumber(row: Cells): string {
    SheetValue(row, UserId)
  }

  // ---- Database ---------------------------------------------------------------

  /** A row of `employee_profiles`; the manager is kept as the manager's e-mail address. */
  datatype Profile = Profile(
    employeeId: Option<string>, department: Option<string>, manager: Option<string>,
    designation: Option<string>, employmentStatus: string, hireDate: Option<int>)

  /** A row of `users` joined with its profile rows and roles. */
  datatype User = User(
    email: Option<string>, phone: Option<string>, fullName: Option<string>, state: string,
    roles: set<string>, profile: Option<Profile>, mfaEnabled: bool, failedLogins: nat,
    createdAt: int, updatedAt: int, lastLoginAt: Option<int>, deleted: bool)

  /** `employee_profiles.employment_status` of a row inserted without that column. */
  const DEFAULT_EMPLOYMENT_STATUS := "active"

  const NEW_PROFILE := Profile(None, None, None, None, DEFAULT_EMPLOYMENT_STATUS, None)

  /** A row of `sheet_sync_records`. */
  datatype Meta = Meta(version: nat, baseline: map<Column, string>, status: string, hash: Option<string>)

  /**
   * What the database and the runtime answer during a sync: the clock, the directory tables that validation
   * consults, the order in which role names are aggregated, casing, date formats, the record hash, and the
   * sheet API's row deletion.
   */
  datatype Env = Env(
    now: int,
    departments: set<string>,
    roles: set<string>,
    managerEmail: string -> Option<string>,
    roleOrder: set<string> -> seq<string>,
    upper: string -> string,
    lower: string -> string,
    fmtDate: int -> string,
    fmtDateTime: int -> string,
    hash: Cells -> string,
    deleteRows: (Sheet, seq<nat>) -> Sheet)

  // ---- Rendering --------------------------------------------------------------

  function RoleText(env: Env, roles: set<string>): string {
    Join(env.roleOrder(roles), ", ")
  }

  predicate Writable(c: Column) {
    || c.Status? || c.Department? || c.Manager? || c.Role?
    || c.FullName? || c.Phone? || c.Designation? || c.EmploymentType?
  }

  /** The database value a writable column is compared with; None for read-only columns. */
  function DbFieldValue(env: Env, u: User, c: Column): Option<string> {
    match c
    case Status => Some(u.state)
    case Department => Some(if u.profile.Some? then u.profile.value.department.GetOr("") else "")
    case Manager => Some(if u.profile.Some? then u.profile.value.manager.GetOr("") else "")
    case Role => Some(RoleText(env, u.roles))
    case FullName => Some(u.fullName.GetOr(""))
    case Phone => Some(u.phone.GetOr(""))
    case Designation => Some(if u.profile.Some? then u.profile.value.designation.GetOr("") else "")
    case EmploymentType => Some(if u.profile.Some? then u.profile.value.employmentStatus else "")
    case _ => None
  }

  function FieldText(env: Env, u: User, c: Column): string
    requires Writable(c)
  {
    DbFieldValue(env, u, c).value
  }

  function RiskOf(u: User): string {
    if u.state in {"TERMINATED", "BLOCKED", "LOCKED"} then "HIGH"
    else if u.state in {"SUSPENDED", "DISABLED", "PASSWORD_RESET_REQUIRED"} then "MEDIUM"
    else if u.failedLogins >= 3 then "MEDIUM"
    else "LOW"
  }

  /** The text pushed for one column. */
  function Rendered(env: Env, number: string, u: User, c: Column, version: string, removed: bool): string {
    match c
    case UserId => number
    case EmployeeId => if u.profile.Some? then u.profile.value.employeeId.GetOr("") else ""
    case FullName => u.fullName.GetOr("")
    case Email => u.email.GetOr("")
    case Phone => u.phone.GetOr("")
    case Department => if u.profile.Some? then u.profile.value.department.GetOr("") else ""
    case Designation => if u.profile.Some? then u.profile.value.designation.GetOr("") else ""
    case Role => RoleText(env, u.roles)
    case Manager => if u.profile.Some? then u.profile.value.manager.GetOr("") else ""
    case Location => ""
    case EmploymentType => if u.profile.Some? then u.profile.value.employmentStatus else ""
    case JoiningDate =>
      if u.profile.Some? && u.profile.value.hireDate.Some? then env.fmtDate(u.profile.value.hireDate.value) else ""
    case Status => if removed then "TERMINATED" else u.state
    case LastLogin => if u.lastLoginAt.Some? then env.fmtDateTime(u.lastLoginAt.value) else ""
    case MfaEnabled => if u.mfaEnabled then "YES" else "NO"
    case AccountRisk => RiskOf(u)
    case CreatedAt => env.fmtDateTime(u.createdAt)
    case UpdatedAt => env.fmtDateTime(u.updatedAt)
    case SyncStatus => if removed then "removed" else "synced"
    case SyncVersion => version
    case Other(_) => ""
  }

  /** The record pushed for a user: exactly the push-enabled columns. */
  function ToRecord(env: Env, number: string, u: User, m: Mappings, version: string, removed: bool): (out: Cells)
  {
    map c | c in PushColumns(m) :: Rendered(env, number, u, c, version, removed)
  }

  /** Push and pull render a live user's writable columns alike. */
  lemma RenderingsAgree(env: Env, number: string, u: User, m: Mappings, version: string, c: Column)
    requires Writable(c) && PushEnabled(DirectionOf(m, c))
    ensures c in ToRecord(env, number, u, m, version, false)
    ensures ToRecord(env, number, u, m, version, false)[c] == FieldText(env, u, c)
  {
    PushColumnsAre(m);
  }
}
