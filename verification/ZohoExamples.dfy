/** Concrete inputs on which the synchroniser departs from its documentation. */
module ZohoExamples {
  import opened Common
  import opened Text
  import opened ZohoRecords
  import opened ZohoPull
  import opened ZohoMerge
  import opened ZohoPullLaws
  import opened ZohoCompletion
  import opened ZohoThrownPull
  import opened ZohoFixpoint
  import opened ZohoConflicts
  import opened ZohoPush
  import opened ZohoPushLaws
  import opened ZohoPushRows

  function Somebody(): User {
    User(None, None, None, "ACTIVE", {}, None, false, 0, 0, 0, None, false)
  }

  /** Validation that knows one department and leaves casing alone; everything else is empty. */
  function PlainEnv(): Env {
    Env(0, {"Sales"}, {}, (v: string) => None, (s: set<string>) => [], (v: string) => v, (v: string) => v,
        (t: int) => "", (t: int) => "", (row: Cells) => "", (sheet: Sheet, rows: seq<nat>) => sheet)
  }

  // ---- A second pull that reports a different conflict -----------------------------------------

  function TwoFields(): Mappings {
    map[Department := "bidirectional", EmploymentType := "bidirectional"]
  }

  /** A tracked user without an employee profile. */
  function NewcomerDb(): Db {
    Db(map["U" := Somebody()], ["U"], map["U" := Meta(1, map[], "synced", None)], [])
  }

  /** The sheet names a department and an employment type that does not exist. */
  function NewcomerRow(): Cells {
    map[UserId := "U", Department := "Sales", EmploymentType := "contract"]
  }

  lemma TrimmedWord(s: string)
    requires s != "" && !IsSpace(s[0]) && !IsSpace(s[|s| - 1])
    ensures Trim(s) == s
  {
  }

  lemma NewcomerIsMasked()
    ensures RowOf(NewcomerDb().users, NewcomerRow(), "U")
    ensures Masks(PlainEnv(), NewcomerDb(), TwoFields(), "U", NewcomerRow())
  {
    TrimmedWord("U");
    TrimmedWord("Sales");
    TrimmedWord("contract");
    hide Trim;
    var env, db, m, row := PlainEnv(), NewcomerDb(), TwoFields(), NewcomerRow();
    assert Applies(env, db, m, "U", row, Department);
    assert InsertsProfile(Department);
    assert SheetValue(row, EmploymentType) == "contract";
    assert FieldText(env, Somebody(), EmploymentType) == "";
    assert "contract" !in EMPLOYMENT_STATUSES;
    assert Decide(env, Somebody(), row, Some(db.meta["U"]), EmploymentType).Refuse?;
  }

  /** The first pull completes, and the second one is not quiet. */
  lemma SecondPullDiffers(t: int)
    ensures Pull(PlainEnv(), NewcomerDb(), [NewcomerRow()], TwoFields()).1.Completed?
    ensures !Quiet(PlainEnv(), NewcomerDb(), [NewcomerRow()], TwoFields(), t)
  {
    var env, db, m, sheet := PlainEnv(), NewcomerDb(), TwoFields(), [NewcomerRow()];
    NewcomerIsMasked();
    assert RowOf(db.users, sheet[0], "U") && Masks(env, db, m, "U", sheet[0]);
    assert OneRowEach(db.users, sheet);
    CompletesWithoutPhone(env, db, sheet, m);
    PullReachesFixpoint(env, db, sheet, m, t);
  }

  // ---- A pull that throws half-way ---------------------------------------------------------------

  /** Upper-casing that knows one word. */
  function UpperEnv(): Env {
    PlainEnv().(upper := (v: string) => if v == "active" then "ACTIVE" else v)
  }

  function StatusAndPhone(): Mappings {
    map[Status := "bidirectional", Phone := "bidirectional"]
  }

  /** Three tracked users in sync with the sheet; B and C have phones. */
  function PhonesDb(): Db {
    Db(map["A" := Somebody().(state := "PENDING"), "B" := Somebody().(phone := Some("1")),
           "C" := Somebody().(phone := Some("2"))],
       ["A", "B", "C"],
       map["A" := Meta(1, map[Status := "PENDING"], "synced", None), "B" := Meta(1, map[Phone := "1"], "synced", None),
           "C" := Meta(1, map[Phone := "2"], "synced", None)],
       [])
  }

  /** A is activated, and B and C swap their phones. */
  function SwapSheet(): Sheet {
    [map[UserId := "A", Status := "active"],
     map[UserId := "B", Status := "ACTIVE", Phone := "2"],
     map[UserId := "C", Status := "ACTIVE", Phone := "1"]]
  }

  lemma SwapCells()
    ensures var sheet := SwapSheet();
            && RowNumber(sheet[0]) == "A" && SheetValue(sheet[0], Status) == "active"
                 && SheetValue(sheet[0], Phone) == ""
            && RowNumber(sheet[1]) == "B" && SheetValue(sheet[1], Phone) == "2"
            && RowNumber(sheet[2]) == "C" && SheetValue(sheet[2], Phone) == "1"
  {
    TrimmedWord("A");
    TrimmedWord("B");
    TrimmedWord("C");
    TrimmedWord("1");
    TrimmedWord("2");
    TrimmedWord("active");
    assert Trim("") == "";
    hide Trim;
  }

  lemma SwapEdits()
    ensures var env, db, m, sheet := UpperEnv(), PhonesDb(), StatusAndPhone(), SwapSheet();
            && Applies(env, db, m, "A", sheet[0], Status)
            && (forall number :: !PhoneEdit(env, db, m, sheet[0], number))
            && PhoneEdit(env, db, m, sheet[1], "B") && OneRowEach(db.users, sheet)
  {
    SwapCells();
    SwapActivates();
    SwapGivesPhone();
    hide SheetValue, RowNumber, Accepts;
    var env, db, m, sheet := UpperEnv(), PhonesDb(), StatusAndPhone(), SwapSheet();
    assert FieldText(env, db.users["A"], Phone) == "";
    hide Applies, UpperEnv;
    forall number
      ensures !PhoneEdit(env, db, m, sheet[0], number)
    {
      SwapLeavesPhone(number);
    }
  }

  lemma SwapActivates()
    ensures Applies(UpperEnv(), PhonesDb(), StatusAndPhone(), "A", SwapSheet()[0], Status)
  {
    SwapCells();
    hide SheetValue, RowNumber;
  }

  lemma SwapGivesPhone()
    ensures PhoneEdit(UpperEnv(), PhonesDb(), StatusAndPhone(), SwapSheet()[1], "B")
  {
    SwapCells();
    hide SheetValue, RowNumber;
    assert Utf16Length("2") == 1 by { assert "2"[..0] == ""; }
  }

  lemma SwapLeavesPhone(number: string)
    ensures !PhoneEdit(UpperEnv(), PhonesDb(), StatusAndPhone(), SwapSheet()[0], number)
  {
    SwapCells();
    hide SheetValue, RowNumber, Accepts;
    assert FieldText(UpperEnv(), PhonesDb().users["A"], Phone) == "";
  }

  /** The swap throws at its first half, although the sheet as a whole gives every phone to one user. */
  lemma SwapThrowsAtB()
    ensures var env, db, m, sheet := UpperEnv(), PhonesDb(), StatusAndPhone(), SwapSheet();
            && ThrowsAt(env, db, m, sheet, 1, "B") && !PhonesFree(env, db, m, sheet)
  {
    SwapCells();
    SwapEdits();
    hide SheetValue, RowNumber, PhoneEdit, OneRowEach, Applies;
    var env, db, m, sheet := UpperEnv(), PhonesDb(), StatusAndPhone(), SwapSheet();
    assert db.users["C"].phone == Some("2") && |sheet[..1]| == 1 && sheet[..1][0] == sheet[0];
    assert PhonesFree(env, db, m, sheet[..1]);
    assert !PhoneFree(env, db, m, sheet[..1], "B", "2");
  }

  /**
   * The pull throws with A's new status written and no metadata stored. The status was upper-cased, so the retry finds
   * it changed on both sides and reports a field that nobody edited in the database.
   */
  lemma SwapThrowsHalfWay()
    ensures var env, db, m, sheet := UpperEnv(), PhonesDb(), StatusAndPhone(), SwapSheet();
            var (next, outcome) := Pull(env, db, sheet, m);
            && outcome.Threw? && next.meta == db.meta && "A" in next.users && next.users["A"].state == "ACTIVE"
            && !CleanRetry(env, db, m, sheet, next)
  {
    SwapCells();
    SwapEdits();
    SwapThrowsAtB();
    var env, db, m, sheet := UpperEnv(), PhonesDb(), StatusAndPhone(), SwapSheet();
    hide PhonesFree, PhoneFree, PhoneEdit, OneRowEach, SheetValue, Applies, PullRows, PullColumns, Merges, CleanField,
         RowNumber;
    RowsFailIff(env, db, m, sheet);
    RetryIsCleanIff(env, db, m, sheet);
    PrefixThrows(env, db, m, sheet, 1, "B", 0);
    assert RowOf(db.users, sheet[0], "A") && Pullable(m, Status) && Stale(env, db, m, "A", sheet[0], Status);
    SwapActivatesA();
  }

  lemma SwapActivatesA()
    ensures var env, db, m, sheet := UpperEnv(), PhonesDb(), StatusAndPhone(), SwapSheet();
            PullRows(env, db.users, db.meta, PullColumns(m), sheet).users["A"].state == "ACTIVE"
  {
    SwapEdits();
    SwapThrowsAtB();
    SwapRowOfA();
    assert |SwapSheet()| == 3 && "A" in PhonesDb().users;
    hide UpperEnv, PhonesDb, StatusAndPhone, SwapSheet, PhonesFree, PhoneFree, PhoneEdit, OneRowEach, SheetValue,
         Applies, PullRows, PullColumns, RowOf, MergedUser, ThrowsAt;
    RowBeforeThrow(UpperEnv(), PhonesDb(), StatusAndPhone(), SwapSheet(), 1, "B", 0, "A");
    MergedActivatesA();
  }

  lemma SwapRowOfA()
    ensures RowOf(PhonesDb().users, SwapSheet()[0], "A")
  {
    SwapCells();
    hide SheetValue, RowNumber;
  }

  lemma MergedActivatesA()
    ensures MergedUser(UpperEnv(), PhonesDb(), PullColumns(StatusAndPhone()), "A", SwapSheet()[0]).state == "ACTIVE"
  {
    SwapCells();
    SwapActivates();
    hide SheetValue, Applies, PullColumns, RowNumber, MergedUser;
    MergedText(UpperEnv(), PhonesDb(), StatusAndPhone(), "A", SwapSheet()[0], Status);
  }

  /** The rows before the one that throws are merged. */
  lemma RowBeforeThrow(env: Env, db: Db, m: Mappings, sheet: Sheet, j: nat, thrown: string, i: nat, number: string)
    requires OneRowEach(db.users, sheet) && !PhonesFree(env, db, m, sheet) && ThrowsAt(env, db, m, sheet, j, thrown)
    requires i < j < |sheet| && RowOf(db.users, sheet[i], number) && number != thrown && number in db.users
    ensures PullRows(env, db.users, db.meta, PullColumns(m), sheet).users[number]
         == MergedUser(env, db, PullColumns(m), number, sheet[i])
  {
    hide PhoneFree, PhoneEdit, OneRowEach, SheetValue, Applies, PullRows, PullColumns, RowNumber, MergedUser,
         PhonesFree, ThrowsAt;
    var k, other := ThrownPullLeaves(env, db, m, sheet);
    OneThrows(env, db, m, sheet, j, thrown, k, other);
    ThrowsInSheet(env, db, m, sheet, j, thrown);
    assert RowOf(db.users, sheet[..j][i], number);
    MergedKeys(env, db, PullColumns(m), sheet[..j],
               PullRows(env, db.users, db.meta, PullColumns(m), sheet).users[thrown := db.users[thrown]]);
  }

  lemma ThrowsInSheet(env: Env, db: Db, m: Mappings, sheet: Sheet, j: nat, thrown: string)
    requires ThrowsAt(env, db, m, sheet, j, thrown)
    ensures j < |sheet| && thrown in db.users
  {
  }

  lemma OneThrows(env: Env, db: Db, m: Mappings, sheet: Sheet, i: nat, a: string, j: nat, b: string)
    requires ThrowsAt(env, db, m, sheet, i, a) && ThrowsAt(env, db, m, sheet, j, b)
    ensures i == j && a == b
  {
    hide PhonesFree, PhoneFree, PhoneEdit, RowNumber;
    PrefixThrows(env, db, m, sheet, i, a, j);
    PrefixThrows(env, db, m, sheet, j, b, i);
    PrefixThrows(env, db, m, sheet, i, a, i);
    PrefixThrows(env, db, m, sheet, j, b, j);
    EditorIsRow(env, db, m, sheet[i], a);
    EditorIsRow(env, db, m, sheet[j], b);
  }

  // ---- A resolution undone by an older conflict ------------------------------------------------------

  function NameOnly(): Mappings {
    map[FullName := "bidirectional"]
  }

  /** Two pulls reported the same field, the first while the cell showed "S0", the second while it showed "S1". */
  function TwoConflictsDb(): Db {
    Db(map["U" := Somebody().(fullName := Some("D"))], ["U"],
       map["U" := Meta(1, map[FullName := "B"], "conflict", None)],
       [ConflictRow(Conflict("U", FullName, Some("D"), "S0"), None),
        ConflictRow(Conflict("U", FullName, Some("D"), "S1"), None)])
  }

  function NamedRow(): Cells {
    map[UserId := "U", FullName := "S1"]
  }

  /** Both resolutions keep the database, so only the baseline of the field moves. */
  lemma BothResolutions()
    ensures var db := TwoConflictsDb();
            var once := Resolve(PlainEnv(), db, 1, KeepDb).0;
            var twice := Resolve(PlainEnv(), once, 0, KeepDb).0;
            && once.users == db.users == twice.users
            && BaselineOf(once, "U", FullName) == Some("S1") && BaselineOf(twice, "U", FullName) == Some("S0")
            && "U" in once.meta && "U" in twice.meta
  {
  }

  /**
   * The cell shows "S1" all along. Resolving the newer conflict silences the field; resolving the older one afterwards,
   * by keeping the database value, makes the next pull report it again.
   */
  lemma OlderConflictReopens()
    ensures var env, db, m := PlainEnv(), TwoConflictsDb(), NameOnly();
            var once := Resolve(env, db, 1, KeepDb).0;
            var twice := Resolve(env, once, 0, KeepDb).0;
            && Silent(env, once, [NamedRow()], m, "U", FullName)
            && !Silent(env, twice, [NamedRow()], m, "U", FullName)
  {
    BothResolutions();
    NamedCells();
    var env, db, m, row := PlainEnv(), TwoConflictsDb(), NameOnly(), NamedRow();
    var once := Resolve(env, db, 1, KeepDb).0;
    var twice := Resolve(env, once, 0, KeepDb).0;
    hide Resolve, SheetValue, FieldText, Silent, RowNumber, BaselineOf, PlainEnv, TwoConflictsDb, NamedRow, IsLive;
    assert Pullable(m, FullName);
    OneRowIsSilentIff(env, once, m, row, "U", FullName);
    OneRowIsSilentIff(env, twice, m, row, "U", FullName);
  }

  lemma NamedCells()
    ensures var users, row := TwoConflictsDb().users, NamedRow();
            && RowNumber(row) == "U" && SheetValue(row, FullName) == "S1" && IsLive(users, "U")
            && FieldText(PlainEnv(), users["U"], FullName) == "D"
  {
    TrimmedWord("U");
    TrimmedWord("S1");
    hide Trim;
  }

  lemma OneRowIsSilentIff(env: Env, db: Db, m: Mappings, row: Cells, number: string, c: Column)
    requires RowOf(db.users, row, number) && number in db.meta && Pullable(m, c)
    ensures Silent(env, db, [row], m, number, c) <==>
        SheetValue(row, c) == FieldText(env, db.users[number], c)
            || BaselineOf(db, number, c) == Some(SheetValue(row, c))
  {
    hide SheetValue, FieldText, Silent, RowNumber, BaselineOf;
    StaysSilentIff(db, [], env, [row], m, number, c);
    assert RowOf(db.users, [row][0], number);
  }

  // ---- A new user lost behind an update ----------------------------------------------------------

  function TwoUsersDb(): Db {
    Db(map["A" := Somebody(), "B" := Somebody()], ["A", "B"], map[], [])
  }

  function OnlyA(): Sheet {
    [map[UserId := "A"]]
  }

  /** A plan that fits one slice and starts with an update appends nothing, yet sends metadata for every operation. */
  lemma UpdateSliceDropsAdditions(env: Env, sheet: Sheet, ops: seq<Op>, batchSize: nat, ok: nat -> bool)
    requires 0 < |ops| <= batchSize && ops[0].Update? && ok(0)
    ensures var flushed := Flush(env, sheet, ops, batchSize, ok, 0);
            |flushed.sheet| == |sheet| && flushed.sent == Metas(ops)
  {
    assert ops[..|ops|] == ops && ops[|ops|..] == [];
  }

  lemma IndexOfA()
    ensures IndexRows(OnlyA()) == map["A" := 0]
  {
    TrimmedWord("A");
    hide Trim;
    assert OnlyA()[..0] == [];
    assert RowNumber(OnlyA()[0]) == "A";
  }

  lemma PlanOfAAndB(env: Env)
    ensures var ops := Plan(env, map[], Mark, OnlyA(), TwoUsersDb(), TwoUsersDb().order);
            && |ops| == 2 && ops[0].Update? && ops[1].Add?
            && ops[1].meta.number == "B" && ops[1].meta.version == 1 && ops[1].meta.status == "synced"
  {
    IndexOfA();
    hide ToRecord, SheetHash, IndexRows, RowNumber;
    assert ["A", "B"][..1] == ["A"] && ["A"][..0] == [];
    assert |Plan(env, map[], Mark, OnlyA(), TwoUsersDb(), ["A"])| == 1;
  }

  /**
   * User A is on the sheet, user B is not. One slice of two, and it succeeds: it is sent as an update,
   * so B gets no row, yet B's metadata says version 1, synced.
   */
  lemma MixedSliceLosesNewUser(env: Env, ok: nat -> bool)
    requires ok(0)
    ensures var pushed := Push(env, TwoUsersDb(), OnlyA(), map[], Mark, 2, ok);
            && |pushed.sheet| == 1
            && "B" in pushed.db.meta && pushed.db.meta["B"].version == 1 && pushed.db.meta["B"].status == "synced"
  {
    PlanOfAAndB(env);
    var ops := Plan(env, map[], Mark, OnlyA(), TwoUsersDb(), TwoUsersDb().order);
    UpdateSliceDropsAdditions(env, OnlyA(), ops, 2, ok);
    hide Plan, Flush;
    var sent := Metas(ops);
    assert sent[..|sent| - 1] == [ops[0].meta] && sent[|sent| - 1] == ops[1].meta;
  }

  // ---- A second row behind an addition ---------------------------------------------------------------

  function OnlyB(): Sheet {
    [map[UserId := "B"]]
  }

  lemma IndexOfB()
    ensures IndexRows(OnlyB()) == map["B" := 0]
    ensures RowNumber(OnlyB()[0]) == "B"
  {
    TrimmedWord("B");
    hide Trim;
    assert OnlyB()[..0] == [];
  }

  lemma PlanOfAAndBOnB(env: Env)
    ensures var ops := Plan(env, map[], Mark, OnlyB(), TwoUsersDb(), TwoUsersDb().order);
            && |ops| == 2 && ops[0].Add? && ops[1].Update? && ops[1].meta.number == "B"
  {
    IndexOfB();
    hide ToRecord, SheetHash, IndexRows, RowNumber;
    assert ["A", "B"][..1] == ["A"] && ["A"][..0] == [];
    assert |Plan(env, map[], Mark, OnlyB(), TwoUsersDb(), ["A"])| == 1;
  }

  lemma SliceAppendsB(env: Env, ok: nat -> bool)
    requires ok(0)
    ensures CanPush(TwoUsersDb(), 2) && Appends(env, TwoUsersDb(), OnlyB(), map[], Mark, 2, ok, "B")
  {
    TwoUsersCanPush();
    PlanOfAAndBOnB(env);
    var ops := Plan(env, map[], Mark, OnlyB(), TwoUsersDb(), TwoUsersDb().order);
    hide Plan, CanPush, OnlyB, TwoUsersDb;
    assert ops[..2] == ops && ops[2..] == [];
    assert ops[1] in Sent(ops, 2, ok, 0, true);
    assert ops[1] in SentAsAdditions(env, TwoUsersDb(), OnlyB(), map[], Mark, 2, ok);
  }

  lemma OneSliceSucceeds(env: Env, ok: nat -> bool)
    requires ok(0)
    ensures Push(env, TwoUsersDb(), OnlyB(), map[], Mark, 2, ok).counts.failedRecords == 0
  {
    PlanOfAAndBOnB(env);
    var ops := Plan(env, map[], Mark, OnlyB(), TwoUsersDb(), TwoUsersDb().order);
    hide Plan, Flush, OnlyB;
    FlushOfOneSlice(env, OnlyB(), ops, 2, ok);
    CountsAre(ops, Flush(env, OnlyB(), ops, 2, ok, 0).failed);
  }

  /**
   * User B is on the sheet, user A is not. One slice of two, and it succeeds: it is sent as an addition, so B's update
   * is appended as a second row. No push that keeps rows takes it away again, and every pull throws from then on.
   */
  lemma MixedSliceRepeatsRow(env: Env, ok: nat -> bool, events: seq<PushEvent>, m: Mappings)
    requires ok(0) && forall i :: 0 <= i < |events| ==> Keeps(events[i])
    ensures var pushed := Push(env, TwoUsersDb(), OnlyB(), map[], Mark, 2, ok);
            && pushed.counts.failedRecords == 0 && RowsOf(OnlyB(), "B") == 1 && RowsOf(pushed.sheet, "B") == 2
            && Pull(env, pushed.db, SheetAfter(pushed.sheet, events), m).1.Threw?
  {
    var db, sheet := TwoUsersDb(), OnlyB();
    TwoUsersCanPush();
    OneRowOfB();
    SliceAppendsB(env, ok);
    OneSliceSucceeds(env, ok);
    assert PushEnabled(DirectionOf(map[], UserId));
    assert IsLive(db.users, "B");
    hide Push, RowsOf, Pull, TrimmedNumbers, Appends, CanPush, Keeps, OnlyB, TwoUsersDb, IsLive, PushEnabled;
    PushAddsRows(env, db, sheet, map[], Mark, 2, ok, "B");
    BStaysLive(env, ok);
    var pushed := Push(env, TwoUsersDb(), OnlyB(), map[], Mark, 2, ok);
    SecondRowIsForGood(pushed.sheet, events, "B", env, pushed.db, m);
  }

  lemma BStaysLive(env: Env, ok: nat -> bool)
    ensures IsLive(Push(env, TwoUsersDb(), OnlyB(), map[], Mark, 2, ok).db.users, "B")
  {
    hide Plan, Flush;
  }

  lemma TwoUsersCanPush()
    ensures CanPush(TwoUsersDb(), 2) && TrimmedNumbers(TwoUsersDb())
  {
    TrimmedWord("A");
    TrimmedWord("B");
    hide Trim;
    assert TwoUsersDb().order[0] == "A" && TwoUsersDb().order[1] == "B";
  }

  lemma OneRowOfB()
    ensures RowsOf(OnlyB(), "B") == 1
  {
    IndexOfB();
    hide RowNumber;
    assert OnlyB()[..0] == [];
  }

  lemma FlushOfOneSlice(env: Env, sheet: Sheet, ops: seq<Op>, batchSize: nat, ok: nat -> bool)
    requires 0 < |ops| <= batchSize && ok(0)
    ensures Flush(env, sheet, ops, batchSize, ok, 0).failed == 0
  {
    assert ops[|ops|..] == [];
  }
}
