/** What a pull amounts to for one sheet row: a per-field three-way merge against snapshot and baseline. */
module ZohoMerge {
  import opened Common
  import opened Text
  import opened ZohoRecords
  import opened ZohoPull

  // ---- What one row writes, reports and acknowledges ------------------------------------

  /** The columns whose sheet value is accepted and written, in sheet order. */
  ghost function WrittenColumns(env: Env, snapshot: User, row: Cells, meta: Option<Meta>,
                                cols: seq<Column>): seq<Column> {
    if cols == [] then []
    else
      var c := cols[|cols| - 1];
      var before := WrittenColumns(env, snapshot, row, meta, cols[..|cols| - 1]);
      if Decide(env, snapshot, row, meta, c).Write? then before + [c] else before
  }

  ghost function ReportedConflicts(env: Env, number: string, snapshot: User, row: Cells, meta: Option<Meta>,
                                   cols: seq<Column>): seq<Conflict> {
    if cols == [] then []
    else
      var c := cols[|cols| - 1];
      var before := ReportedConflicts(env, number, snapshot, row, meta, cols[..|cols| - 1]);
      if Reports(Decide(env, snapshot, row, meta, c)) then before + [FieldConflict(env, number, snapshot, row, c)]
      else before
  }

  ghost function BaselineAfter(env: Env, snapshot: User, row: Cells, meta: Option<Meta>, cols: seq<Column>)
    : map<Column, string>
  {
    if cols == [] then StoredBaseline(meta)
    else
      var c := cols[|cols| - 1];
      var before := BaselineAfter(env, snapshot, row, meta, cols[..|cols| - 1]);
      if Acknowledges(Decide(env, snapshot, row, meta, c)) then before[c := SheetValue(row, c)] else before
  }

  lemma {:induction false} WrittenColumnsAre(env: Env, snapshot: User, row: Cells, meta: Option<Meta>,
                                             cols: seq<Column>)
    requires InSheetOrder(cols)
    ensures var ws := WrittenColumns(env, snapshot, row, meta, cols);
            && InSheetOrder(ws)
            && (forall c :: c in ws ==> Writable(c))
            && forall c :: c in ws <==> c in cols && Decide(env, snapshot, row, meta, c).Write?
  {
    hide Decide, Writable;
    if cols != [] {
      var init, last := cols[..|cols| - 1], cols[|cols| - 1];
      WrittenColumnsAre(env, snapshot, row, meta, init);
      OnlyWritableIsWritten(env, snapshot, row, meta, last);
      assert forall c :: c in cols <==> c in init || c == last;
      assert forall c :: c in init ==> Rank(c) < Rank(last);
    }
  }

  lemma OnlyWritableIsWritten(env: Env, snapshot: User, row: Cells, meta: Option<Meta>, c: Column)
    ensures Decide(env, snapshot, row, meta, c).Write? ==> Writable(c)
  {
  }

  lemma {:induction false} ReportedConflictsAre(env: Env, number: string, snapshot: User, row: Cells,
                                                meta: Option<Meta>, cols: seq<Column>)
    ensures forall k :: k in ReportedConflicts(env, number, snapshot, row, meta, cols) <==>
        k.field in cols && Reports(Decide(env, snapshot, row, meta, k.field))
        && k == FieldConflict(env, number, snapshot, row, k.field)
  {
    hide Decide, DbFieldValue, SheetValue;
    if cols != [] {
      ReportedConflictsAre(env, number, snapshot, row, meta, cols[..|cols| - 1]);
      assert cols == cols[..|cols| - 1] + [cols[|cols| - 1]];
    }
  }

  /** The new baseline holds the sheet value exactly where it was acknowledged, the stored one elsewhere. */
  lemma {:induction false} BaselineLookup(env: Env, snapshot: User, row: Cells, meta: Option<Meta>,
                                          cols: seq<Column>, c: Column)
    ensures var b := BaselineAfter(env, snapshot, row, meta, cols);
            if c in cols && Acknowledges(Decide(env, snapshot, row, meta, c)) then c in b && b[c] == SheetValue(row, c)
            else (c in b <==> c in StoredBaseline(meta)) && (c in b ==> b[c] == StoredBaseline(meta)[c])
  {
    hide Decide;
    if cols != [] {
      var init := cols[..|cols| - 1];
      BaselineLookup(env, snapshot, row, meta, init, c);
      assert c in cols <==> c in init || c == cols[|cols| - 1];
    }
  }

  // ---- The merged user ----------------------------------------------------------------------

  /** The values of columns `ws` written one after the other. */
  ghost function WriteAll(env: Env, u: User, row: Cells, ws: seq<Column>): User {
    if ws == [] then u
    else
      var c := ws[|ws| - 1];
      Written(env, WriteAll(env, u, row, ws[..|ws| - 1]), c, SheetValue(row, c))
  }

  ghost predicate CreatesProfile(ws: seq<Column>) {
    Department in ws || Designation in ws || Manager in ws
  }

  /** The user with every written column replaced and everything else as it was. */
  ghost function Merged(env: Env, u: User, row: Cells, ws: seq<Column>): User {
    u.(state := if Status in ws then env.upper(SheetValue(row, Status)) else u.state,
       fullName := if FullName in ws then Some(SheetValue(row, FullName)) else u.fullName,
       phone := if Phone in ws then Some(SheetValue(row, Phone)) else u.phone,
       roles := if Role in ws then u.roles + {SheetValue(row, Role)} else u.roles,
       updatedAt := if Status in ws || Phone in ws then env.now else u.updatedAt,
       profile := if u.profile.None? && !CreatesProfile(ws) then None else Some(MergedProfile(env, u, row, ws)))
  }

  ghost function MergedProfile(env: Env, u: User, row: Cells, ws: seq<Column>): Profile {
    var p := ProfileOf(u);
    p.(department := if Department in ws then Some(SheetValue(row, Department)) else p.department,
       designation := if Designation in ws then Some(SheetValue(row, Designation)) else p.designation,
       manager := if Manager in ws then env.managerEmail(SheetValue(row, Manager)) else p.manager,
       employmentStatus := if EmploymentType in ws then env.lower(SheetValue(row, EmploymentType))
                           else p.employmentStatus)
  }

  /** Writing the columns in sheet order is the simultaneous merge. */
  lemma {:induction false} WriteAllMerges(env: Env, u: User, row: Cells, ws: seq<Column>)
    requires InSheetOrder(ws) && forall c :: c in ws ==> Writable(c)
    ensures WriteAll(env, u, row, ws) == Merged(env, u, row, ws)
  {
    hide SheetValue, Merged, Written, InsertsProfile, Writable, Rank, Extends;
    if ws == [] {
      MergedNothing(env, u, row);
    } else {
      var init, last := ws[..|ws| - 1], ws[|ws| - 1];
      assert ws == init + [last];
      WriteAllMerges(env, u, row, init);
      LastColumn(init, last);
      ExtendsLast(init, last);
      MergeOneMore(env, u, row, ws, init, last);
    }
  }

  lemma MergedNothing(env: Env, u: User, row: Cells)
    ensures Merged(env, u, row, []) == u
  {
  }

  lemma ExtendsLast(init: seq<Column>, last: Column)
    ensures Extends(init + [last], init, last)
  {
  }

  /** Employment Type comes after every column that can insert the profile row. */
  lemma LastColumn(init: seq<Column>, last: Column)
    requires InSheetOrder(init + [last])
    ensures last !in init && (EmploymentType in init ==> !InsertsProfile(last))
  {
    var ws := init + [last];
    assert forall i :: 0 <= i < |init| ==> ws[i] == init[i];
    assert ws[|init|] == last;
  }

  /** `ws` is `init` and `last`, as far as the writable columns are concerned. */
  ghost predicate Extends(ws: seq<Column>, init: seq<Column>, last: Column) {
    && (Status in ws <==> Status in init || last.Status?)
    && (FullName in ws <==> FullName in init || last.FullName?)
    && (Phone in ws <==> Phone in init || last.Phone?)
    && (Role in ws <==> Role in init || last.Role?)
    && (Department in ws <==> Department in init || last.Department?)
    && (Designation in ws <==> Designation in init || last.Designation?)
    && (Manager in ws <==> Manager in init || last.Manager?)
    && (EmploymentType in ws <==> EmploymentType in init || last.EmploymentType?)
  }

  lemma MergeOneMore(env: Env, u: User, row: Cells, ws: seq<Column>, init: seq<Column>, last: Column)
    requires Extends(ws, init, last) && Writable(last)
    requires last !in init && (EmploymentType in init ==> !InsertsProfile(last))
    ensures Written(env, Merged(env, u, row, init), last, SheetValue(row, last)) == Merged(env, u, row, ws)
  {
    if InsertsProfile(last) {
      MergeInsertedProfile(env, u, row, ws, init, last);
    } else if last.EmploymentType? {
      MergeEmploymentType(env, u, row, ws, init);
    } else {
      hide SheetValue, MergedProfile;
      SameProfileColumns(env, u, row, ws, init, last);
    }
  }

  lemma SameProfileColumns(env: Env, u: User, row: Cells, ws: seq<Column>, init: seq<Column>, last: Column)
    requires Extends(ws, init, last) && !InsertsProfile(last) && !last.EmploymentType?
    ensures MergedProfile(env, u, row, ws) == MergedProfile(env, u, row, init)
  {
    hide SheetValue;
  }

  lemma MergeInsertedProfile(env: Env, u: User, row: Cells, ws: seq<Column>, init: seq<Column>, last: Column)
    requires Extends(ws, init, last) && InsertsProfile(last) && last !in init && EmploymentType !in init
    ensures Written(env, Merged(env, u, row, init), last, SheetValue(row, last)) == Merged(env, u, row, ws)
  {
    hide SheetValue;
    assert ProfileOf(Merged(env, u, row, init)) == MergedProfile(env, u, row, init);
    assert MergedProfile(env, u, row, ws)
        == ProfileOf(Written(env, Merged(env, u, row, init), last, SheetValue(row, last)));
    hide MergedProfile;
  }

  lemma MergeEmploymentType(env: Env, u: User, row: Cells, ws: seq<Column>, init: seq<Column>)
    requires Extends(ws, init, EmploymentType) && EmploymentType !in init
    ensures Written(env, Merged(env, u, row, init), EmploymentType, SheetValue(row, EmploymentType))
        == Merged(env, u, row, ws)
  {
    hide SheetValue;
  }

  // ---- PullRow is the merge ---------------------------------------------------------------------

  lemma {:induction false} RowResultIs(env: Env, users: map<string, User>, number: string, snapshot: User,
                                       row: Cells, meta: Option<Meta>, cols: seq<Column>)
    requires number in users
    requires !PullRow(env, users, number, snapshot, row, meta, cols).failed
    ensures var r, ws := PullRow(env, users, number, snapshot, row, meta, cols),
                WrittenColumns(env, snapshot, row, meta, cols);
            && r.user == WriteAll(env, users[number], row, ws)
            && r.baseline == BaselineAfter(env, snapshot, row, meta, cols)
            && r.conflicts == ReportedConflicts(env, number, snapshot, row, meta, cols)
            && r.writes == |ws|
  {
    hide Decide, Written, SheetValue, FieldConflict, PullField;
    if cols != [] {
      var init, last := cols[..|cols| - 1], cols[|cols| - 1];
      RowResultIs(env, users, number, snapshot, row, meta, init);
      FieldResultIs(env, users, number, snapshot, row, meta, PullRow(env, users, number, snapshot, row, meta, init),
                    last);
    }
  }

  lemma FieldResultIs(env: Env, users: map<string, User>, number: string, snapshot: User, row: Cells,
                      meta: Option<Meta>, r: RowResult, c: Column)
    requires !r.failed && !PullField(env, users, number, snapshot, row, meta, r, c).failed
    ensures var d, value := Decide(env, snapshot, row, meta, c), SheetValue(row, c);
            PullField(env, users, number, snapshot, row, meta, r, c)
            == RowResult(if d.Write? then Written(env, r.user, c, value) else r.user,
                         if Acknowledges(d) then r.baseline[c := value] else r.baseline,
                         if Reports(d) then r.conflicts + [FieldConflict(env, number, snapshot, row, c)]
                         else r.conflicts,
                         if d.Write? then r.writes + 1 else r.writes, false)
  {
  }

  /** Also when a write throws, the user holds the merge of the columns before it. */
  lemma {:induction false} RowStopsAt(env: Env, users: map<string, User>, number: string, snapshot: User,
                                      row: Cells, meta: Option<Meta>, cols: seq<Column>) returns (done: seq<Column>)
    requires number in users
    ensures done <= cols
    ensures PullRow(env, users, number, snapshot, row, meta, cols).user
         == WriteAll(env, users[number], row, WrittenColumns(env, snapshot, row, meta, done))
  {
    hide Decide, Written, SheetValue, DbFieldValue;
    var r := PullRow(env, users, number, snapshot, row, meta, cols);
    if !r.failed {
      RowResultIs(env, users, number, snapshot, row, meta, cols);
      done := cols;
    } else if cols == [] {
      done := [];
    } else {
      done := RowStopsAt(env, users, number, snapshot, row, meta, cols[..|cols| - 1]);
    }
  }
}
