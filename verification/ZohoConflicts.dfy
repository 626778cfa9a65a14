/** Conflict resolution: acknowledging a sheet value so that no later pull raises the field again. */
module ZohoConflicts {
  import opened Common
  import opened Text
  import opened ZohoRecords
  import opened ZohoPull
  import opened ZohoMerge
  import opened ZohoPullLaws
  import opened ZohoCompletion
  import opened ZohoThrownPull
  import opened ZohoFixpoint
  import opened ZohoPush
  import opened ZohoPushLaws

  datatype Resolution = KeepDb | KeepSheet | Skip

  datatype ResolveOutcome = Resolved | NotFound | UserGone | NotApplicable | WriteThrew

  function ResolutionName(r: Resolution): string {
    match r
    case KeepDb => "keep_db"
    case KeepSheet => "keep_sheet"
    case Skip => "skip"
  }

  /** The sheet value becomes the baseline of the field, if the user is tracked at all. */
  function Acknowledge(meta: map<string, Meta>, k: Conflict): map<string, Meta> {
    if k.number in meta then
      var old_ := meta[k.number];
      meta[k.number := old_.(baseline := old_.baseline[k.field := k.sheetValue], status := "synced")]
    else meta
  }

  function Resolve(env: Env, db: Db, id: nat, resolution: Resolution): (Db, ResolveOutcome) {
    if id >= |db.conflicts| || db.conflicts[id].resolution.Some? then (db, NotFound)
    else
      var k := db.conflicts[id].conflict;
      var closed := db.(meta := Acknowledge(db.meta, k),
                        conflicts := db.conflicts[id := ConflictRow(k, Some(ResolutionName(resolution)))]);
      if !resolution.KeepSheet? then (closed, Resolved)
      else if !IsLive(db.users, k.number) then (db, UserGone)
      else if !Accepts(env, k.field, k.sheetValue) then (db, NotApplicable)
      else if WriteThrows(db.users, k.number, k.field, k.sheetValue) then (db, WriteThrew)
      else (closed.(users := db.users[k.number := Written(env, db.users[k.number], k.field, k.sheetValue)]), Resolved)
  }

  // ---- Field conflicts are about tracked users ------------------------------------------

  /** A field conflict is only ever reported for a user with sync metadata, and metadata is never dropped. */
  ghost predicate Tracked(db: Db) {
    forall row :: row in db.conflicts && Writable(row.conflict.field) ==> row.conflict.number in db.meta
  }

  // ---- Everything that can happen to the synchroniser -----------------------------------

  datatype Event =
    | Pulls(env: Env, sheet: Sheet, m: Mappings)
    | Pushes(env: Env, sheet: Sheet, m: Mappings, policy: DeletionPolicy, batchSize: nat, ok: nat -> bool)
    | Resolves(env: Env, id: nat, resolution: Resolution)
    | EditsUsers(users: map<string, User>, order: seq<string>)

  function Step(db: Db, e: Event): Db {
    match e
    case Pulls(env, sheet, m) => Pull(env, db, sheet, m).0
    case Pushes(env, sheet, m, policy, batchSize, ok) =>
      if batchSize > 0 && forall number :: number in db.order ==> number in db.users
      then Push(env, db, sheet, m, policy, batchSize, ok).db else db
    case Resolves(env, id, resolution) => Resolve(env, db, id, resolution).0
    case EditsUsers(users, order) => db.(users := users, order := order)
  }

  function Run(db: Db, events: seq<Event>): Db {
    if events == [] then db else Step(Run(db, events[..|events| - 1]), events[|events| - 1])
  }

  lemma {:induction false} FieldReportsAreTracked(env: Env, db: Db, cols: seq<Column>, sheet: Sheet)
    ensures forall k :: k in AllReports(env, db, cols, sheet) && Writable(k.field) ==> k.number in db.meta
  {
    hide SheetValue, Decide, ReportedConflicts;
    if sheet != [] {
      var row := sheet[|sheet| - 1];
      var number := RowNumber(row);
      FieldReportsAreTracked(env, db, cols, sheet[..|sheet| - 1]);
      if IsLive(db.users, number) {
        ReportedConflictsAre(env, number, db.users[number], row, MetaOf(db.meta, number), cols);
        forall c ensures Reports(Decide(env, db.users[number], row, MetaOf(db.meta, number), c)) ==> number in db.meta {
          OnlyTrackedReport(env, db.users[number], row, MetaOf(db.meta, number), c);
        }
      }
    }
  }

  lemma OnlyTrackedReport(env: Env, snapshot: User, row: Cells, meta: Option<Meta>, c: Column)
    ensures Reports(Decide(env, snapshot, row, meta, c)) ==> meta.Some?
  {
  }

  lemma PendingMembers(reports: seq<Conflict>)
    ensures forall row :: row in Pending(reports) ==> row.conflict in reports
  {
  }

  lemma {:induction false} UpsertKeepsKeys(meta: map<string, Meta>, updates: seq<MetaUpdate>)
    ensures meta.Keys <= Upsert(meta, updates).Keys
  {
    if updates != [] {
      UpsertKeepsKeys(meta, updates[..|updates| - 1]);
    }
  }

  lemma PullKeepsTracked(env: Env, db: Db, sheet: Sheet, m: Mappings)
    requires Tracked(db)
    ensures Tracked(Pull(env, db, sheet, m).0)
  {
    hide SheetValue, PullRows, PullColumns, AllReports, Writable, NamesTwice, Upsert, Pending;
    var cols := PullColumns(m);
    var r := PullRows(env, db.users, db.meta, cols, sheet);
    if !r.failed {
      PullReports(env, db, cols, sheet);
      FieldReportsAreTracked(env, db, cols, sheet);
      PendingMembers(r.conflicts);
      UpsertKeepsKeys(db.meta, r.updates);
    }
  }

  /** Every step keeps field conflicts tied to tracked users. */
  lemma StepKeepsTracked(db: Db, e: Event)
    requires Tracked(db)
    ensures Tracked(Step(db, e))
  {
    hide Pull, SheetValue, Plan, Flush, Accepts, Written, Writable;
    match e
    case Pulls(env, sheet, m) => PullKeepsTracked(env, db, sheet, m);
    case Pushes(env, sheet, m, policy, batchSize, ok) =>
      if batchSize > 0 && forall n :: n in db.order ==> n in db.users {
        var sent := Flush(env, sheet, Plan(env, m, policy, sheet, db, db.order), batchSize, ok, 0).sent;
        forall number | number in db.meta ensures number in UpsertPushed(db.meta, sent) {
          PushKeepsBaselines(db.meta, sent, number);
        }
      }
    case Resolves(env, id, resolution) =>
      forall row | row in Resolve(env, db, id, resolution).0.conflicts
        ensures exists old_ :: old_ in db.conflicts && old_.conflict == row.conflict
      {
        var j :| 0 <= j < |db.conflicts| && Resolve(env, db, id, resolution).0.conflicts[j] == row;
        assert db.conflicts[j] in db.conflicts && db.conflicts[j].conflict == row.conflict;
      }
    case EditsUsers(users, order) =>
  }

  /** From tables without conflicts, every run keeps field conflicts tied to tracked users. */
  lemma {:induction false} RunKeepsTracked(db: Db, events: seq<Event>)
    requires Tracked(db)
    ensures Tracked(Run(db, events))
  {
    hide Tracked, Step;
    if events != [] {
      RunKeepsTracked(db, events[..|events| - 1]);
      StepKeepsTracked(Run(db, events[..|events| - 1]), events[|events| - 1]);
    }
  }

  lemma StepKeepsMeta(db: Db, e: Event, number: string)
    requires number in db.meta
    ensures number in Step(db, e).meta
  {
    hide PullRows, NamesTwice, Upsert, Plan, Flush, UpsertPushed, Accepts, Written, CountOps;
    match e
    case Pulls(env, sheet, m) =>
      UpsertKeepsKeys(db.meta, PullRows(env, db.users, db.meta, PullColumns(m), sheet).updates);
    case Pushes(env, sheet, m, policy, batchSize, ok) =>
      if batchSize > 0 && forall n :: n in db.order ==> n in db.users {
        PushKeepsBaselines(db.meta, Flush(env, sheet, Plan(env, m, policy, sheet, db, db.order), batchSize, ok, 0).sent,
                           number);
      }
    case Resolves(env, id, resolution) =>
    case EditsUsers(users, order) =>
  }

  lemma {:induction false} RunKeepsMeta(db: Db, events: seq<Event>, number: string)
    requires number in db.meta
    ensures number in Run(db, events).meta
  {
    hide Step;
    if events != [] {
      RunKeepsMeta(db, events[..|events| - 1], number);
      StepKeepsMeta(Run(db, events[..|events| - 1]), events[|events| - 1], number);
    }
  }

  // ---- An acknowledged cell -----------------------------------------------------------------

  ghost predicate Acknowledged(db: Db, number: string, c: Column, value: string) {
    number in db.meta && c in db.meta[number].baseline && db.meta[number].baseline[c] == value
  }

  /** The sheet cell still holds the value, and no other conflict of the same cell is resolved. */
  ghost predicate CellUnchanged(db: Db, e: Event, number: string, c: Column, value: string) {
    match e
    case Pulls(_, sheet, _) =>
      forall i :: 0 <= i < |sheet| && RowNumber(sheet[i]) == number ==> SheetValue(sheet[i], c) == value
    case Resolves(_, id, _) =>
      id < |db.conflicts| ==>
        var k := db.conflicts[id].conflict;
        k.number == number && k.field == c ==> k.sheetValue == value
    case _ => true
  }

  lemma AcknowledgedDecision(env: Env, db: Db, number: string, row: Cells, c: Column)
    requires number in db.users && Writable(c) && Acknowledged(db, number, c, SheetValue(row, c))
    ensures Decide(env, db.users[number], row, MetaOf(db.meta, number), c).Settle?
  {
    hide SheetValue, DbFieldValue, Accepts;
  }

  /** A pull neither applies nor reports an acknowledged cell. */
  lemma {:induction false} AcknowledgedIsSilent(env: Env, db: Db, cols: seq<Column>, sheet: Sheet, number: string,
                                                c: Column, value: string)
    requires Writable(c) && Acknowledged(db, number, c, value)
    requires forall i :: 0 <= i < |sheet| && RowNumber(sheet[i]) == number ==> SheetValue(sheet[i], c) == value
    ensures forall k :: k in AllReports(env, db, cols, sheet) ==> !(k.number == number && k.field == c)
    ensures forall i | 0 <= i < |sheet| && RowOf(db.users, sheet[i], number) ::
              c !in RowWrites(env, db, cols, number, sheet[i])
  {
    hide SheetValue, Decide, Acknowledged, ReportedConflicts, WrittenColumns, Orphan;
    if sheet != [] {
      var init, row := sheet[..|sheet| - 1], sheet[|sheet| - 1];
      assert forall i :: 0 <= i < |init| ==> sheet[i] == init[i];
      assert sheet[|init|] == row;
      AcknowledgedIsSilent(env, db, cols, init, number, c, value);
      if IsLive(db.users, RowNumber(row)) {
        ReportedConflictsAre(env, RowNumber(row), db.users[RowNumber(row)], row, MetaOf(db.meta, RowNumber(row)), cols);
        if RowNumber(row) == number {
          AcknowledgedDecision(env, db, number, row, c);
          WrittenAreWrites(env, db.users[number], row, MetaOf(db.meta, number), cols);
        }
      }
    }
  }

  lemma {:induction false} WrittenAreWrites(env: Env, snapshot: User, row: Cells, meta: Option<Meta>, cols: seq<Column>)
    ensures forall c :: c in WrittenColumns(env, snapshot, row, meta, cols) ==>
        Decide(env, snapshot, row, meta, c).Write?
  {
    hide Decide;
    if cols != [] {
      WrittenAreWrites(env, snapshot, row, meta, cols[..|cols| - 1]);
    }
  }

  lemma PullKeepsAcknowledged(env: Env, db: Db, sheet: Sheet, m: Mappings, number: string, c: Column, value: string)
    requires Writable(c) && Acknowledged(db, number, c, value)
    requires forall i :: 0 <= i < |sheet| && RowNumber(sheet[i]) == number ==> SheetValue(sheet[i], c) == value
    ensures Acknowledged(Pull(env, db, sheet, m).0, number, c, value)
  {
    hide SheetValue, Decide, AllReports, Merges, Pull, DbFieldValue, BaselineAfter, PullColumns, OneRowEach,
         RowWrites, RowReports;
    var next := Pull(env, db, sheet, m).0;
    if Pull(env, db, sheet, m).1.Completed? {
      CompletedPullMerges(env, db, sheet, m);
      if HasRow(db.users, sheet, number) {
        var i :| 0 <= i < |sheet| && RowOf(db.users, sheet[i], number);
        assert MetaOf(next.meta, number) == Some(MergedMeta(env, db, PullColumns(m), number, sheet[i]));
        BaselineLookup(env, db.users[number], sheet[i], MetaOf(db.meta, number), PullColumns(m), c);
      } else {
        assert MetaOf(next.meta, number) == MetaOf(db.meta, number);
      }
    } else {
      ThrownPullKeepsMeta(env, db, sheet, m);
    }
  }

  lemma ThrownPullKeepsMeta(env: Env, db: Db, sheet: Sheet, m: Mappings)
    requires Pull(env, db, sheet, m).1.Threw?
    ensures Pull(env, db, sheet, m).0.meta == db.meta
  {
    hide PullRows;
  }

  lemma {:induction false} PushKeepsBaselines(meta: map<string, Meta>, sent: seq<PushMeta>, number: string)
    requires number in meta
    ensures number in UpsertPushed(meta, sent) && UpsertPushed(meta, sent)[number].baseline == meta[number].baseline
  {
    if sent != [] {
      PushKeepsBaselines(meta, sent[..|sent| - 1], number);
    }
  }

  lemma StepKeepsAcknowledged(db: Db, e: Event, number: string, c: Column, value: string)
    requires Writable(c) && Acknowledged(db, number, c, value) && CellUnchanged(db, e, number, c, value)
    ensures Acknowledged(Step(db, e), number, c, value)
  {
    hide Pull, SheetValue, Plan, Flush, Accepts, Written;
    match e
    case Pulls(env, sheet, m) => PullKeepsAcknowledged(env, db, sheet, m, number, c, value);
    case Pushes(env, sheet, m, policy, batchSize, ok) =>
      if batchSize > 0 && forall n :: n in db.order ==> n in db.users {
        PushKeepsBaselines(db.meta, Flush(env, sheet, Plan(env, m, policy, sheet, db, db.order), batchSize, ok, 0).sent,
                           number);
      }
    case Resolves(env, id, resolution) =>
    case EditsUsers(users, order) =>
  }

  /** All along the run the cell keeps the acknowledged value. */
  ghost predicate UnchangedThroughout(db: Db, events: seq<Event>, number: string, c: Column, value: string) {
    forall k :: 0 <= k < |events| ==> CellUnchanged(Run(db, events[..k]), events[k], number, c, value)
  }

  lemma {:induction false} RunKeepsAcknowledged(db: Db, events: seq<Event>, number: string, c: Column, value: string)
    requires Writable(c) && Acknowledged(db, number, c, value) && UnchangedThroughout(db, events, number, c, value)
    ensures Acknowledged(Run(db, events), number, c, value)
  {
    hide CellUnchanged, Step, Acknowledged;
    if events != [] {
      var init := events[..|events| - 1];
      assert forall k :: 0 <= k < |init| ==> events[k] == init[k] && events[..k] == init[..k];
      RunKeepsAcknowledged(db, init, number, c, value);
      assert CellUnchanged(Run(db, events[..|init|]), events[|init|], number, c, value);
      StepKeepsAcknowledged(Run(db, init), events[|init|], number, c, value);
    }
  }

  /** A resolution that goes through acknowledges the conflict's sheet value, whichever it is. */
  lemma ResolutionAcknowledges(env: Env, db: Db, id: nat, resolution: Resolution)
    requires Resolve(env, db, id, resolution).1.Resolved? && Writable(db.conflicts[id].conflict.field) && Tracked(db)
    ensures var k := db.conflicts[id].conflict;
            Acknowledged(Resolve(env, db, id, resolution).0, k.number, k.field, k.sheetValue)
  {
    assert db.conflicts[id] in db.conflicts;
  }

  /**
   * Resolution sticks: once a field conflict is resolved, and as long as the cell keeps its value, every pull of every
   * later run (with any edits of the database, pushes and other resolutions in between) neither writes nor reports the
   * field.
   */
  lemma ResolutionSticks(env: Env, db: Db, id: nat, resolution: Resolution, events: seq<Event>, later: Event)
    requires Resolve(env, db, id, resolution).1.Resolved? && Writable(db.conflicts[id].conflict.field) && Tracked(db)
    requires var k, next := db.conflicts[id].conflict, Resolve(env, db, id, resolution).0;
             && UnchangedThroughout(next, events, k.number, k.field, k.sheetValue)
             && CellUnchanged(Run(next, events), later, k.number, k.field, k.sheetValue)
    requires later.Pulls?
    ensures var k, now := db.conflicts[id].conflict, Run(Resolve(env, db, id, resolution).0, events);
            && (forall i | 0 <= i < |later.sheet| && RowOf(now.users, later.sheet[i], k.number) ::
                  k.field !in RowWrites(later.env, now, PullColumns(later.m), k.number, later.sheet[i]))
            && (forall report :: report in AllReports(later.env, now, PullColumns(later.m), later.sheet) ==>
                  !(report.number == k.number && report.field == k.field))
  {
    var k := db.conflicts[id].conflict;
    hide Acknowledged, Run, Resolve, Writable, RowWrites, AllReports, UnchangedThroughout, Tracked, PullColumns,
         SheetValue;
    ResolutionAcknowledges(env, db, id, resolution);
    RunKeepsAcknowledged(Resolve(env, db, id, resolution).0, events, k.number, k.field, k.sheetValue);
    AcknowledgedIsSilent(later.env, Run(Resolve(env, db, id, resolution).0, events), PullColumns(later.m), later.sheet,
                         k.number, k.field, k.sheetValue);
  }

  // ---- Exactly when a field is silent ----------------------------------------------------------

  /** A field of a tracked user settles exactly when the cell shows the database text or the stored baseline. */
  lemma SettlesIff(env: Env, db: Db, number: string, row: Cells, c: Column)
    requires number in db.users && number in db.meta && Writable(c)
    ensures FirstDecision(env, db, number, row, c).Settle? <==>
        || SheetValue(row, c) == FieldText(env, db.users[number], c)
        || Acknowledged(db, number, c, SheetValue(row, c))
  {
    hide SheetValue, DbFieldValue, Accepts;
  }

  /**
   * After any resolution the next pull settles the field exactly when the cell shows the resolved value or the
   * database's.
   */
  lemma ResolutionSettlesIff(env: Env, db: Db, id: nat, resolution: Resolution, row: Cells)
    requires Resolve(env, db, id, resolution).1.Resolved? && Writable(db.conflicts[id].conflict.field) && Tracked(db)
    requires db.conflicts[id].conflict.number in db.users
    ensures var k, next := db.conflicts[id].conflict, Resolve(env, db, id, resolution).0;
            k.number in next.users
            && (FirstDecision(env, next, k.number, row, k.field).Settle? <==>
                  || SheetValue(row, k.field) == k.sheetValue
                  || SheetValue(row, k.field) == FieldText(env, next.users[k.number], k.field))
  {
    var k, next := db.conflicts[id].conflict, Resolve(env, db, id, resolution).0;
    ResolutionAcknowledges(env, db, id, resolution);
    assert k.number in next.users;
    hide Resolve, SheetValue, FieldText, Decide, Tracked;
    SettlesIff(env, next, k.number, row, k.field);
  }

  /** A row at which an unobstructed pull acknowledges the cell. */
  ghost predicate AcknowledgesRow(env: Env, db: Db, m: Mappings, row: Cells, number: string, c: Column) {
    RowOf(db.users, row, number) && !c.Other? && PullEnabled(DirectionOf(m, c))
    && Acknowledges(FirstDecision(env, db, number, row, c))
  }

  /** The value that one event acknowledges for a cell, if any. */
  ghost function AcknowledgedBy(db: Db, e: Event, number: string, c: Column): Option<string> {
    match e
    case Pulls(env, sheet, m) =>
      if i :| Unobstructed(env, db, m, sheet) && 0 <= i < |sheet| && AcknowledgesRow(env, db, m, sheet[i], number, c)
      then Some(SheetValue(sheet[i], c)) else None
    case Resolves(env, id, resolution) =>
      if Resolve(env, db, id, resolution).1.Resolved? && number in db.meta
         && db.conflicts[id].conflict.number == number && db.conflicts[id].conflict.field == c
      then Some(db.conflicts[id].conflict.sheetValue) else None
    case _ => None
  }

  /** The value last acknowledged for a cell over a run, or else the one stored before it. */
  ghost function LastAcknowledged(db: Db, events: seq<Event>, number: string, c: Column): Option<string> {
    if events == [] then BaselineOf(db, number, c)
    else
      var n := |events| - 1;
      var now := AcknowledgedBy(Run(db, events[..n]), events[n], number, c);
      if now.Some? then now else LastAcknowledged(db, events[..n], number, c)
  }

  function BaselineOf(db: Db, number: string, c: Column): Option<string> {
    if number in db.meta && c in db.meta[number].baseline then Some(db.meta[number].baseline[c]) else None
  }

  lemma RowAcknowledges(env: Env, db: Db, m: Mappings, row: Cells, next: Db, number: string, c: Column)
    requires RowOf(db.users, row, number)
    requires MetaOf(next.meta, number) == Some(MergedMeta(env, db, PullColumns(m), number, row))
    ensures BaselineOf(next, number, c)
         == if AcknowledgesRow(env, db, m, row, number, c) then Some(SheetValue(row, c)) else BaselineOf(db, number, c)
  {
    hide SheetValue, Decide, BaselineAfter, PullColumns, RowWrites, RowReports;
    PullColumnsAre(m);
    BaselineLookup(env, db.users[number], row, MetaOf(db.meta, number), PullColumns(m), c);
  }

  lemma PullAcknowledges(env: Env, db: Db, sheet: Sheet, m: Mappings, number: string, c: Column)
    ensures var acknowledged := AcknowledgedBy(db, Pulls(env, sheet, m), number, c);
            BaselineOf(Pull(env, db, sheet, m).0, number, c)
            == if acknowledged.Some? then acknowledged else BaselineOf(db, number, c)
  {
    hide SheetValue, FirstDecision, AllReports, Merges, Pull, MergedMeta, PullColumns, Unobstructed, AllWrites,
         BaselineOf;
    var next := Pull(env, db, sheet, m).0;
    PullCompletesIff(env, db, sheet, m);
    if Unobstructed(env, db, m, sheet) {
      PullIsThreeWayMerge(env, db, sheet, m);
      forall i | 0 <= i < |sheet| && RowOf(db.users, sheet[i], number)
        ensures BaselineOf(next, number, c)
                == if AcknowledgesRow(env, db, m, sheet[i], number, c) then Some(SheetValue(sheet[i], c))
                   else BaselineOf(db, number, c)
      {
        assert MetaOf(next.meta, number) == Some(MergedMeta(env, db, PullColumns(m), number, sheet[i]));
        RowAcknowledges(env, db, m, sheet[i], next, number, c);
      }
      hide RowOf;
      if !HasRow(db.users, sheet, number) {
        assert MetaOf(next.meta, number) == MetaOf(db.meta, number);
        SameBaseline(db, next, number, c);
      }
    } else {
      ThrownPullKeepsMeta(env, db, sheet, m);
      SameBaseline(db, next, number, c);
    }
  }

  lemma SameBaseline(db: Db, next: Db, number: string, c: Column)
    requires StoredBaseline(MetaOf(next.meta, number)) == StoredBaseline(MetaOf(db.meta, number))
    ensures BaselineOf(next, number, c) == BaselineOf(db, number, c)
  {
    assert BaselineOf(next, number, c).Some? <==> c in StoredBaseline(MetaOf(next.meta, number));
    assert BaselineOf(db, number, c).Some? <==> c in StoredBaseline(MetaOf(db.meta, number));
  }

  lemma {:induction false} PushKeepsEveryBaseline(meta: map<string, Meta>, sent: seq<PushMeta>, number: string)
    ensures StoredBaseline(MetaOf(UpsertPushed(meta, sent), number)) == StoredBaseline(MetaOf(meta, number))
  {
    if sent != [] {
      PushKeepsEveryBaseline(meta, sent[..|sent| - 1], number);
    }
  }

  lemma ResolveAcknowledges(env: Env, db: Db, id: nat, resolution: Resolution, number: string, c: Column)
    ensures var acknowledged := AcknowledgedBy(db, Resolves(env, id, resolution), number, c);
            BaselineOf(Resolve(env, db, id, resolution).0, number, c)
            == if acknowledged.Some? then acknowledged else BaselineOf(db, number, c)
  {
    hide Accepts, Written, WriteThrows, IsLive;
  }

  lemma StepAcknowledges(db: Db, e: Event, number: string, c: Column)
    ensures var acknowledged := AcknowledgedBy(db, e, number, c);
            BaselineOf(Step(db, e), number, c) == if acknowledged.Some? then acknowledged else BaselineOf(db, number, c)
  {
    hide Pull, Resolve, SheetValue, Plan, Flush, UpsertPushed, AcknowledgesRow, Unobstructed, BaselineOf, CountOps;
    match e
    case Pulls(env, sheet, m) => PullAcknowledges(env, db, sheet, m, number, c);
    case Pushes(env, sheet, m, policy, batchSize, ok) =>
      if batchSize > 0 && forall n :: n in db.order ==> n in db.users {
        PushKeepsEveryBaseline(db.meta,
                               Flush(env, sheet, Plan(env, m, policy, sheet, db, db.order), batchSize, ok, 0).sent,
                               number);
        SameBaseline(db, Step(db, e), number, c);
      }
    case Resolves(env, id, resolution) => ResolveAcknowledges(env, db, id, resolution, number, c);
    case EditsUsers(users, order) => SameBaseline(db, Step(db, e), number, c);
  }

  lemma {:induction false} BaselineIsLastAcknowledged(db: Db, events: seq<Event>, number: string, c: Column)
    ensures BaselineOf(Run(db, events), number, c) == LastAcknowledged(db, events, number, c)
  {
    hide Step, AcknowledgedBy, BaselineOf;
    if events != [] {
      var n := |events| - 1;
      BaselineIsLastAcknowledged(db, events[..n], number, c);
      StepAcknowledges(Run(db, events[..n]), events[n], number, c);
    }
  }

  ghost predicate Mentions(reports: seq<Conflict>, number: string, c: Column) {
    exists k :: k in reports && k.number == number && k.field == c
  }

  /** A pull neither writes nor reports the field of the user. */
  ghost predicate Silent(env: Env, db: Db, sheet: Sheet, m: Mappings, number: string, c: Column) {
    && (forall i | 0 <= i < |sheet| && RowOf(db.users, sheet[i], number) ::
          c !in RowWrites(env, db, PullColumns(m), number, sheet[i]))
    && !Mentions(AllReports(env, db, PullColumns(m), sheet), number, c)
  }

  lemma MentionsConcat(a: seq<Conflict>, b: seq<Conflict>, number: string, c: Column)
    ensures Mentions(a + b, number, c) <==> Mentions(a, number, c) || Mentions(b, number, c)
  {
  }

  lemma RowMentions(env: Env, db: Db, cols: seq<Column>, owner: string, row: Cells, number: string, c: Column)
    requires owner in db.users
    ensures Mentions(RowReports(env, db, cols, owner, row), number, c) <==>
        owner == number && c in cols && Reports(FirstDecision(env, db, number, row, c))
  {
    hide SheetValue, Decide, ReportedConflicts, DbFieldValue;
    ReportedConflictsAre(env, owner, db.users[owner], row, MetaOf(db.meta, owner), cols);
    if owner == number && c in cols && Reports(FirstDecision(env, db, number, row, c)) {
      assert FieldConflict(env, number, db.users[number], row, c) in RowReports(env, db, cols, owner, row);
    }
  }

  lemma OrphanMentions(env: Env, row: Cells, number: string, c: Column)
    requires !c.Other?
    ensures !Mentions([OrphanConflict(env, row)], number, c)
  {
    hide SheetValue;
  }

  /** A field is reported exactly when some row of its user is decided so. */
  ghost predicate DecidedReport(env: Env, db: Db, cols: seq<Column>, sheet: Sheet, number: string, c: Column) {
    exists i :: 0 <= i < |sheet| && RowOf(db.users, sheet[i], number) && c in cols
                && Reports(FirstDecision(env, db, number, sheet[i], c))
  }

  lemma DecidedOneMore(env: Env, db: Db, cols: seq<Column>, init: Sheet, row: Cells, number: string, c: Column)
    ensures DecidedReport(env, db, cols, init + [row], number, c) <==>
        || DecidedReport(env, db, cols, init, number, c)
        || (RowOf(db.users, row, number) && c in cols && Reports(FirstDecision(env, db, number, row, c)))
  {
    hide FirstDecision, Reports, RowNumber;
    var sheet := init + [row];
    assert sheet[|init|] == row;
    forall i | 0 <= i < |init|
      ensures sheet[i] == init[i]
    {
    }
    if DecidedReport(env, db, cols, init, number, c) {
      var i :| 0 <= i < |init| && RowOf(db.users, init[i], number) && c in cols
               && Reports(FirstDecision(env, db, number, init[i], c));
      assert RowOf(db.users, sheet[i], number);
    }
  }

  lemma {:induction false} ReportsAreDecided(env: Env, db: Db, cols: seq<Column>, sheet: Sheet, number: string,
                                             c: Column)
    requires !c.Other?
    ensures Mentions(AllReports(env, db, cols, sheet), number, c) <==> DecidedReport(env, db, cols, sheet, number, c)
  {
    hide FirstDecision, Reports, RowNumber, RowReports, Orphan, OrphanConflict, Mentions, DecidedReport;
    if sheet == [] {
      NothingReported(env, db, cols, number, c);
    } else {
      var init, row := sheet[..|sheet| - 1], sheet[|sheet| - 1];
      var owner, before := RowNumber(row), AllReports(env, db, cols, init);
      assert sheet == init + [row];
      ReportsAreDecided(env, db, cols, init, number, c);
      DecidedOneMore(env, db, cols, init, row, number, c);
      if owner != "" && IsLive(db.users, owner) {
        MentionsConcat(before, RowReports(env, db, cols, owner, row), number, c);
        RowMentions(env, db, cols, owner, row, number, c);
      } else {
        MentionsConcat(before, [OrphanConflict(env, row)], number, c);
        OrphanMentions(env, row, number, c);
      }
    }
  }

  lemma NothingReported(env: Env, db: Db, cols: seq<Column>, number: string, c: Column)
    ensures !Mentions(AllReports(env, db, cols, []), number, c) && !DecidedReport(env, db, cols, [], number, c)
  {
  }

  /**
   * After any run, a pull is silent about a field exactly when, in every row of its user, the cell shows the database
   * text or the value last acknowledged for it; or the user is not tracked yet.
   */
  lemma StaysSilentIff(db: Db, events: seq<Event>, env: Env, sheet: Sheet, m: Mappings, number: string, c: Column)
    requires Pullable(m, c)
    ensures var now := Run(db, events);
            Silent(env, now, sheet, m, number, c) <==>
              forall i | 0 <= i < |sheet| && RowOf(now.users, sheet[i], number) ::
                || number !in now.meta
                || SheetValue(sheet[i], c) == FieldText(env, now.users[number], c)
                || LastAcknowledged(db, events, number, c) == Some(SheetValue(sheet[i], c))
  {
    var now, cols := Run(db, events), PullColumns(m);
    hide Run, LastAcknowledged, PullColumns, SheetValue, FieldText, AllReports, RowNumber, RowWrites;
    PullColumnsAre(m);
    WritableIsOwned(c);
    ReportsAreDecided(env, now, cols, sheet, number, c);
    BaselineIsLastAcknowledged(db, events, number, c);
    forall i | 0 <= i < |sheet| && RowOf(now.users, sheet[i], number)
      ensures (c !in RowWrites(env, now, cols, number, sheet[i])
               && !Reports(FirstDecision(env, now, number, sheet[i], c))) <==>
                || number !in now.meta
                || SheetValue(sheet[i], c) == FieldText(env, now.users[number], c)
                || LastAcknowledged(db, events, number, c) == Some(SheetValue(sheet[i], c))
    {
      FieldIsSilentIff(env, now, m, number, sheet[i], c);
    }
    hide FirstDecision, Mentions, BaselineOf;
  }

  lemma WritableIsOwned(c: Column)
    ensures Writable(c) ==> !c.Other?
  {
  }

  lemma FieldIsSilentIff(env: Env, db: Db, m: Mappings, number: string, row: Cells, c: Column)
    requires number in db.users && Pullable(m, c)
    ensures (c !in RowWrites(env, db, PullColumns(m), number, row)
             && !Reports(FirstDecision(env, db, number, row, c))) <==>
        || number !in db.meta
        || SheetValue(row, c) == FieldText(env, db.users[number], c)
        || BaselineOf(db, number, c) == Some(SheetValue(row, c))
  {
    hide SheetValue, FieldText, PullColumns, DbFieldValue, Accepts, WrittenColumns;
    PullColumnsAre(m);
    WrittenColumnsAre(env, db.users[number], row, MetaOf(db.meta, number), PullColumns(m));
    if number in db.meta {
      SettlesIff(env, db, number, row, c);
    }
  }

  /**
   * A resolution, anywhere in a run that starts without conflicts, sticks as long as the cell keeps the resolved value:
   * a later pull is silent about the field exactly when that value is the one last acknowledged since, or the database
   * has it.
   */
  lemma ResolutionSticksIff(start: Db, before: seq<Event>, env: Env, id: nat, resolution: Resolution,
                            events: seq<Event>, later: Event)
    requires start.conflicts == [] && later.Pulls?
    requires var db := Run(start, before);
             && Resolve(env, db, id, resolution).1.Resolved? && Pullable(later.m, db.conflicts[id].conflict.field)
    requires var k := Run(start, before).conflicts[id].conflict;
             forall i :: 0 <= i < |later.sheet| && RowNumber(later.sheet[i]) == k.number ==>
               SheetValue(later.sheet[i], k.field) == k.sheetValue
    ensures var db := Run(start, before);
            var k, next := db.conflicts[id].conflict, Resolve(env, db, id, resolution).0;
            var now := Run(next, events);
            && (events == [] ==> LastAcknowledged(next, events, k.number, k.field) == Some(k.sheetValue))
            && (Silent(later.env, now, later.sheet, later.m, k.number, k.field) <==>
                  || !HasRow(now.users, later.sheet, k.number)
                  || FieldText(later.env, now.users[k.number], k.field) == k.sheetValue
                  || LastAcknowledged(next, events, k.number, k.field) == Some(k.sheetValue))
  {
    var db := Run(start, before);
    var k, next := db.conflicts[id].conflict, Resolve(env, db, id, resolution).0;
    RunKeepsTracked(start, before);
    ResolutionAcknowledges(env, db, id, resolution);
    RunKeepsMeta(next, events, k.number);
    StaysSilentIff(next, events, later.env, later.sheet, later.m, k.number, k.field);
    hide Run, Resolve, Silent, SheetValue, FieldText, AcknowledgedBy;
  }
}
